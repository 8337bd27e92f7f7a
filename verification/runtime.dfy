/** The free-text runtime of a detail payload ("142 min") and the number a
    watched entry keeps: `Number(runtime.split(" ").at(0))`. */
module Runtime {
  import opened Wrappers

  /** JavaScript `s.split(" ")`: the pieces between single spaces, so two
      adjacent spaces produce an empty piece and there is always one piece. */
  function Split(s: string): (r: seq<string>)
    ensures |r| >= 1
    ensures forall i :: 0 <= i < |r| ==> ' ' !in r[i]
  {
    if s == [] then [""]
    else
      var rest := Split(s[1..]);
      if s[0] == ' ' then [""] + rest
      else [[s[0]] + rest[0]] + rest[1..]
  }

  /** The inverse of `Split`: the pieces glued back with single spaces. */
  function Join(parts: seq<string>): string
    requires |parts| >= 1
  {
    if |parts| == 1 then parts[0] else parts[0] + " " + Join(parts[1..])
  }

  /** `split(" ").at(0)`: the longest prefix that holds no space. */
  function FirstToken(s: string): (r: string)
    ensures r <= s
    ensures ' ' !in r
    ensures |r| < |s| ==> s[|r|] == ' '
  {
    if s == [] || s[0] == ' ' then "" else [s[0]] + FirstToken(s[1..])
  }

  lemma {:induction false} JoinSplit(s: string)
    ensures Join(Split(s)) == s
  {
    if s != [] {
      var rest := Split(s[1..]);
      JoinSplit(s[1..]);
      if s[0] == ' ' {
        assert Split(s) == [""] + rest;
        assert (([""] + rest)[1..]) == rest;
      } else {
        var parts := [[s[0]] + rest[0]] + rest[1..];
        assert Split(s) == parts;
        if |rest| == 1 {
          assert Join(parts) == [s[0]] + rest[0];
        } else {
          assert parts[1..] == rest[1..];
          assert Join(rest) == rest[0] + " " + Join(rest[1..]);
          assert Join(parts) == [s[0]] + (rest[0] + " " + Join(rest[1..]));
        }
        assert [s[0]] + s[1..] == s;
      }
    }
  }

  /** Splitting a space-free word followed by a space and a tail. */
  lemma {:induction false} SplitWord(w: string, t: string)
    requires ' ' !in w
    ensures Split(w + " " + t) == [w] + Split(t)
    ensures Split(w) == [w]
  {
    if w == [] {
      assert w + " " + t == [' '] + t;
      assert ([' '] + t)[1..] == t;
    } else {
      SplitWord(w[1..], t);
      assert (w + " " + t)[1..] == w[1..] + " " + t;
      assert (w + " " + t)[0] == w[0];
      assert [w[0]] + w[1..] == w;
      var rest := Split(w[1..] + " " + t);
      assert rest[0] == w[1..] && rest[1..] == Split(t);
      assert Split(w) == [[w[0]] + Split(w[1..])[0]] + Split(w[1..])[1..];
    }
  }

  lemma {:induction false} SplitJoin(parts: seq<string>)
    requires |parts| >= 1
    requires forall i :: 0 <= i < |parts| ==> ' ' !in parts[i]
    ensures Split(Join(parts)) == parts
  {
    SplitWord(parts[0], "");
    if |parts| > 1 {
      SplitJoin(parts[1..]);
      SplitWord(parts[0], Join(parts[1..]));
      assert [parts[0]] + parts[1..] == parts;
    }
  }

  /** `FirstToken` is the first piece of `Split`. */
  lemma {:induction false} FirstTokenIsFirstPiece(s: string)
    ensures FirstToken(s) == Split(s)[0]
  {
    if s != [] && s[0] != ' ' {
      FirstTokenIsFirstPiece(s[1..]);
    }
  }

  predicate IsDigits(s: string) {
    forall i :: 0 <= i < |s| ==> '0' <= s[i] <= '9'
  }

  function DigitValue(c: char): (d: nat)
    requires '0' <= c <= '9'
    ensures d < 10
  {
    (c as int - '0' as int) as nat
  }

  function ValueOf(s: string): nat
    requires IsDigits(s)
  {
    if s == [] then 0 else 10 * ValueOf(s[..|s| - 1]) + DigitValue(s[|s| - 1])
  }

  /** JavaScript `Number(token)` on a space-free token, for tokens that are
      empty (`Number("")` is 0) or made of decimal digits; every other token
      is `None`, the model's stand-in for NaN. */
  function Minutes(token: string): (r: Option<nat>)
    ensures r.Some? <==> IsDigits(token)
    ensures token == "" ==> r == Some(0)
  {
    if IsDigits(token) then Some(ValueOf(token)) else None
  }

  /** The runtime number a watched entry stores for a free-text runtime. */
  function RuntimeMinutes(runtime: string): Option<nat>
  {
    Minutes(FirstToken(runtime))
  }

  /** Decimal digits of `n`, most significant first, without leading zeros. */
  function ShowNat(n: nat): (r: string)
    ensures |r| >= 1 && IsDigits(r)
  {
    var d := ['0' + (n % 10) as char];
    if n < 10 then d else ShowNat(n / 10) + d
  }

  lemma {:induction false} ShowNatRoundTrip(n: nat)
    ensures Minutes(ShowNat(n)) == Some(n)
  {
    var s := ShowNat(n);
    var c := '0' + (n % 10) as char;
    assert s[|s| - 1] == c && DigitValue(c) == n % 10;
    if n < 10 {
      assert s[..|s| - 1] == [];
    } else {
      ShowNatRoundTrip(n / 10);
      assert s[..|s| - 1] == ShowNat(n / 10);
    }
    assert ValueOf(s) == 10 * ValueOf(s[..|s| - 1]) + n % 10;
  }

  /** A catalog runtime of the form "<n> min" is stored as `n`. */
  lemma CatalogRuntime(n: nat)
    ensures RuntimeMinutes(ShowNat(n) + " min") == Some(n)
  {
    var w := ShowNat(n);
    var s := w + " min";
    assert ' ' !in w by {
      forall i | 0 <= i < |w| ensures w[i] != ' ' { assert '0' <= w[i] <= '9'; }
    }
    assert s == w + " " + "min";
    SplitWord(w, "min");
    FirstTokenIsFirstPiece(s);
    assert FirstToken(s) == ShowNat(n);
    ShowNatRoundTrip(n);
  }

  /** The catalog's "N/A" runtime becomes NaN. */
  lemma UnknownRuntime()
    ensures RuntimeMinutes("N/A") == None
  {
    assert !IsDigits("N/A") by { assert "N/A"[1] == '/'; }
  }
}
