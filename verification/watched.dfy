/** The watched list: entries the user confirmed, in confirmation order. */
module Watched {
  import opened Wrappers
  import opened Catalog

  /** One confirmed movie. `imdbRating` keeps the catalog's text (its
      numeric conversion is not modelled); `runtime` is `None` for NaN. */
  datatype Entry = Entry(
    imdbId: Id,
    title: Option<string>,
    year: Option<string>,
    poster: Option<string>,
    imdbRating: Option<string>,
    runtime: Option<nat>,
    userRating: nat)

  /** `handleAddWatched`: the entry goes at the end, nothing else moves. */
  function Add(w: seq<Entry>, e: Entry): (r: seq<Entry>)
    ensures |r| == |w| + 1
    ensures r[..|w|] == w
    ensures r[|w|] == e
  {
    w + [e]
  }

  /** `handleDeleteWatched`: keep the entries whose id differs. */
  function Delete(w: seq<Entry>, id: Id): (r: seq<Entry>)
    ensures |r| <= |w|
    ensures forall i :: 0 <= i < |r| ==> r[i].imdbId != id
  {
    if w == [] then []
    else if w[0].imdbId != id then [w[0]] + Delete(w[1..], id)
    else Delete(w[1..], id)
  }

  /** The ids of a list, in order. */
  function Ids(w: seq<Entry>): seq<Id>
  {
    if w == [] then [] else [w[0].imdbId] + Ids(w[1..])
  }

  /** `watched.map((movie) => movie.imdbId).includes(id)`. */
  function Contains(w: seq<Entry>, id: Id): (r: bool)
    ensures r <==> exists i :: 0 <= i < |w| && w[i].imdbId == id
  {
    if w == [] then false else w[0].imdbId == id || Contains(w[1..], id)
  }

  /** How many entries carry `id`. */
  function CountId(w: seq<Entry>, id: Id): nat
  {
    if w == [] then 0 else (if w[0].imdbId == id then 1 else 0) + CountId(w[1..], id)
  }

  /** `a` is `b` with some elements dropped, order kept. */
  predicate SubsequenceOf<T(==)>(a: seq<T>, b: seq<T>)
    decreases |b|
  {
    if a == [] then true
    else if b == [] then false
    else if a[0] == b[0] then SubsequenceOf(a[1..], b[1..])
    else SubsequenceOf(a, b[1..])
  }

  /** No id occurs twice. */
  predicate UniqueIds(w: seq<Entry>) {
    forall i, j :: 0 <= i < j < |w| ==> w[i].imdbId != w[j].imdbId
  }

  lemma {:induction false} ContainsMatchesIds(w: seq<Entry>, id: Id)
    ensures Contains(w, id) <==> id in Ids(w)
  {
    if w != [] {
      ContainsMatchesIds(w[1..], id);
    }
  }

  /** Delete is the order-preserving filter: its result is a subsequence of
      the list, lacks exactly the entries carrying the id, and holds every
      other entry as often as the list does. */
  lemma {:induction false} DeleteIsFilter(w: seq<Entry>, id: Id)
    ensures SubsequenceOf(Delete(w, id), w)
    ensures |Delete(w, id)| == |w| - CountId(w, id)
    ensures forall e :: multiset(Delete(w, id))[e] == if e.imdbId == id then 0 else multiset(w)[e]
  {
    if w != [] {
      DeleteIsFilter(w[1..], id);
      var rest := Delete(w[1..], id);
      assert w == [w[0]] + w[1..];
      assert multiset(w) == multiset{w[0]} + multiset(w[1..]);
      if w[0].imdbId != id {
        assert Delete(w, id) == [w[0]] + rest;
        assert ([w[0]] + rest)[1..] == rest;
        assert multiset(Delete(w, id)) == multiset{w[0]} + multiset(rest);
      } else {
        assert Delete(w, id) == rest;
        if rest != [] {
          assert rest[0] in rest;
          assert rest[0].imdbId != id;
        }
      }
    }
  }

  lemma {:induction false} DeleteAbsent(w: seq<Entry>, id: Id)
    requires !Contains(w, id)
    ensures Delete(w, id) == w
  {
    if w != [] {
      DeleteAbsent(w[1..], id);
      assert [w[0]] + w[1..] == w;
    }
  }

  lemma {:induction false} DeleteIdempotent(w: seq<Entry>, id: Id)
    ensures Delete(Delete(w, id), id) == Delete(w, id)
  {
    var r := Delete(w, id);
    DeleteAbsent(r, id);
  }

  /** The entries that survive a delete are exactly the list's entries
      with another id. */
  lemma {:induction false} DeleteMembers(w: seq<Entry>, id: Id)
    ensures forall e :: e in Delete(w, id) <==> e in w && e.imdbId != id
  {
    if w != [] {
      DeleteMembers(w[1..], id);
      assert w == [w[0]] + w[1..];
      if w[0].imdbId != id {
        assert Delete(w, id) == [w[0]] + Delete(w[1..], id);
      }
    }
  }

  /** Deleting from a list with a known head. */
  lemma DeleteCons(x: Entry, w: seq<Entry>, id: Id)
    ensures Delete([x] + w, id) == (if x.imdbId != id then [x] else []) + Delete(w, id)
  {
    assert ([x] + w)[0] == x && ([x] + w)[1..] == w;
  }

  lemma {:induction false} DeleteConcat(a: seq<Entry>, b: seq<Entry>, id: Id)
    ensures Delete(a + b, id) == Delete(a, id) + Delete(b, id)
  {
    if a == [] {
      assert a + b == b;
    } else {
      var x, rest := a[0], a[1..];
      assert a == [x] + rest;
      assert a + b == [x] + (rest + b);
      DeleteCons(x, rest + b, id);
      DeleteCons(x, rest, id);
      DeleteConcat(rest, b, id);
      var front := if x.imdbId != id then [x] else [];
      assert front + (Delete(rest, id) + Delete(b, id)) == (front + Delete(rest, id)) + Delete(b, id);
    }
  }

  /** Deleting after adding: the new entry goes too if it carries the id,
      and otherwise stays last. */
  lemma DeleteAfterAdd(w: seq<Entry>, e: Entry, id: Id)
    ensures Delete(Add(w, e), id) == if e.imdbId == id then Delete(w, id) else Add(Delete(w, id), e)
  {
    DeleteConcat(w, [e], id);
    assert Delete([e], id) == if e.imdbId == id then [] else [e];
  }

  lemma AddContains(w: seq<Entry>, e: Entry, id: Id)
    ensures Contains(Add(w, e), id) <==> Contains(w, id) || id == e.imdbId
  {
    var r := Add(w, e);
    if Contains(w, id) {
      var i :| 0 <= i < |w| && w[i].imdbId == id;
      assert r[i] == w[i];
    }
    if Contains(r, id) && !Contains(w, id) {
      var i :| 0 <= i < |r| && r[i].imdbId == id;
      assert i == |w|;
    }
  }

  lemma DeleteContains(w: seq<Entry>, id: Id, x: Id)
    ensures Contains(Delete(w, id), x) <==> Contains(w, x) && x != id
  {
    var r := Delete(w, id);
    DeleteMembers(w, id);
    if Contains(r, x) {
      var i :| 0 <= i < |r| && r[i].imdbId == x;
      assert r[i] in r;
      var j :| 0 <= j < |w| && w[j] == r[i];
    }
    if Contains(w, x) && x != id {
      var j :| 0 <= j < |w| && w[j].imdbId == x;
      assert w[j] in w;
      var i :| 0 <= i < |r| && r[i] == w[j];
    }
  }

  lemma AddKeepsUnique(w: seq<Entry>, e: Entry)
    requires UniqueIds(w)
    requires !Contains(w, e.imdbId)
    ensures UniqueIds(Add(w, e))
  {
  }

  lemma {:induction false} DeleteKeepsUnique(w: seq<Entry>, id: Id)
    requires UniqueIds(w)
    ensures UniqueIds(Delete(w, id))
  {
    if w != [] {
      DeleteKeepsUnique(w[1..], id);
      DeleteMembers(w[1..], id);
      var rest := Delete(w[1..], id);
      if w[0].imdbId != id {
        var r := [w[0]] + rest;
        forall i, j | 0 <= i < j < |r| ensures r[i].imdbId != r[j].imdbId {
          if i == 0 {
            assert r[j] == rest[j - 1] && rest[j - 1] in rest;
            assert r[j] in w[1..];
            var k :| 0 <= k < |w[1..]| && w[1..][k] == r[j];
            assert w[k + 1] == r[j];
          } else {
            assert r[i] == rest[i - 1] && r[j] == rest[j - 1];
          }
        }
      }
    }
  }

  lemma {:induction false} CountWhenUnique(w: seq<Entry>, id: Id)
    requires UniqueIds(w)
    ensures CountId(w, id) == if Contains(w, id) then 1 else 0
  {
    if w != [] {
      CountWhenUnique(w[1..], id);
      if w[0].imdbId == id {
        assert !Contains(w[1..], id) by {
          forall i | 0 <= i < |w[1..]| ensures w[1..][i].imdbId != id {
            assert w[1..][i] == w[i + 1];
          }
        }
      }
    }
  }

  /** With unique ids, deleting a present id removes exactly one entry. */
  lemma DeleteRemovesOne(w: seq<Entry>, id: Id)
    requires UniqueIds(w)
    requires Contains(w, id)
    ensures |Delete(w, id)| == |w| - 1
  {
    DeleteIsFilter(w, id);
    CountWhenUnique(w, id);
  }
}
