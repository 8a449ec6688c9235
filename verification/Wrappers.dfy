/** What the modules of the project share: the Option type, and two facts about sequences. */
module Wrappers {
  datatype Option<+T> = None | Some(value: T)

  ghost predicate Distinct<T(!new)>(s: seq<T>) {
    forall i, j :: 0 <= i < j < |s| ==> s[i] != s[j]
  }

  ghost function Elements<T>(s: seq<T>): set<T> {
    set x | x in s
  }

  function Least(a: nat, b: nat): nat {
    if a < b then a else b
  }

  function Greatest(a: nat, b: nat): nat {
    if a < b then b else a
  }
}
