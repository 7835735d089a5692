/** Values that travel between workflow states, and the small vocabulary every other module uses. */
module Types {

  datatype Option<+T> = None | Some(value: T)

  /** A Go `any` as it appears in an input or output map. */
  datatype Value =
    | Null
    | Bool(b: bool)
    | Number(n: real)
    | Text(s: string)
    | List(items: seq<Value>)
    | Object(fields: map<string, Value>)

  /** `kflow.Input` and `kflow.Output`; a nil map and an empty map are the same payload. */
  type Payload = map<string, Value>

  /** What a user handler, a choice encoding or a service dispatch returns. */
  datatype Outcome = Ok(output: Payload) | Err(message: string)

  datatype RetryPolicy = RetryPolicy(maxAttempts: int, backoffSeconds: int)

  const ERROR_KEY := "_error"
  const CHOICE_KEY := "__choice__"
  const SUCCEED := "__succeed__"
  const FAIL := "__fail__"

  predicate IsSentinel(name: string) {
    name == SUCCEED || name == FAIL
  }

  /** The input a catch handler receives: the failing state's input with the error message under `_error`. */
  function MergeErrorKey(input: Payload, message: string): Payload {
    input[ERROR_KEY := Text(message)]
  }

  predicate NoDuplicates<T(==)>(s: seq<T>) {
    forall i, j :: 0 <= i < j < |s| ==> s[i] != s[j]
  }

  /** Pigeonhole: a duplicate-free sequence over a finite set is no longer than the set. */
  lemma {:induction false} DistinctWithinSet<T>(s: seq<T>, universe: set<T>)
    requires NoDuplicates(s)
    requires forall x :: x in s ==> x in universe
    ensures |s| <= |universe|
  {
    if s != [] {
      var last := s[|s| - 1];
      var rest := s[..|s| - 1];
      assert last in s;
      forall x | x in rest ensures x in universe - {last} {
        assert x in s;
      }
      DistinctWithinSet(rest, universe - {last});
    }
  }
}
