/** Which reading of the application a transition function follows. */
module Builds {

  /** `AsWritten` is the program as it is; `Corrected` repairs the defects
      listed under "Findings" in the README and changes nothing else. */
  datatype Build = AsWritten | Corrected
}
