/** The string keys under which records, documents and offloaded objects are filed,
    and why no two of them collide. */
module Keys {

  /** `execID + ":" + stateName` */
  function StateKey(exec: string, state: string): string {
    exec + ":" + state
  }

  /** `<execID>:<stateName>:<attempt>` */
  function DocId(exec: string, state: string, attempt: int): string {
    exec + ":" + state + ":" + Itoa(attempt)
  }

  /** `executions/<execID>/states/<stateName>/attempt-<attempt>.json` */
  function ObjectKey(exec: string, state: string, attempt: int): string {
    ObjectDir(exec, state) + "/" + ObjectFile(attempt)
  }

  function ObjectDir(exec: string, state: string): string {
    "executions/" + (exec + "/" + ("states/" + state))
  }

  function ObjectFile(attempt: int): string {
    "attempt-" + Itoa(attempt) + ".json"
  }

  /** Execution ids as the UUID generators produce them. */
  predicate CleanId(exec: string) {
    ':' !in exec && '/' !in exec
  }

  // ----- decimal rendering of attempt numbers (`%d`)

  function Digit(d: nat): char
    requires d < 10
  {
    '0' + d as char
  }

  function NatToString(n: nat): string {
    if n < 10 then [Digit(n)] else NatToString(n / 10) + [Digit(n % 10)]
  }

  function Itoa(n: int): string {
    if n < 0 then "-" + NatToString(-n) else NatToString(n)
  }

  lemma {:induction false} NatToStringDigits(n: nat)
    ensures NatToString(n) != []
    ensures forall c :: c in NatToString(n) ==> '0' <= c <= '9'
  {
    if n >= 10 {
      NatToStringDigits(n / 10);
    }
  }

  lemma {:induction false} NatToStringInjective(a: nat, b: nat)
    requires NatToString(a) == NatToString(b)
    ensures a == b
  {
    NatToStringDigits(a / 10);
    NatToStringDigits(b / 10);
    var s := NatToString(a);
    assert s[|s| - 1] == Digit(a % 10) == Digit(b % 10);
    if a >= 10 && b >= 10 {
      assert NatToString(a / 10) == s[..|s| - 1] == NatToString(b / 10);
      NatToStringInjective(a / 10, b / 10);
    }
  }

  lemma NegativeRendersApart(a: int, b: int)
    requires a < 0 <= b
    ensures Itoa(a) != Itoa(b)
  {
    NatToStringDigits(b);
    assert Itoa(a)[0] == '-';
    assert Itoa(b)[0] in Itoa(b);
  }

  /** Attempt numbers are rendered without either separator, and differently when they differ. */
  lemma ItoaInjective(a: int, b: int)
    ensures ':' !in Itoa(a) && '/' !in Itoa(a)
    ensures Itoa(a) == Itoa(b) ==> a == b
  {
    NatToStringDigits(if a < 0 then -a else a);
    NatToStringDigits(if b < 0 then -b else b);
    if Itoa(a) == Itoa(b) {
      if a < 0 && b < 0 {
        assert NatToString(-a) == Itoa(a)[1..] == NatToString(-b);
        NatToStringInjective(-a, -b);
      } else if a >= 0 && b >= 0 {
        NatToStringInjective(a, b);
      } else {
        NegativeRendersApart(if a < 0 then a else b, if a < 0 then b else a);
      }
    }
  }

  function DecimalValue(s: string): int {
    if s == [] then 0 else 10 * DecimalValue(s[..|s| - 1]) + (s[|s| - 1] as int - '0' as int)
  }

  lemma {:induction false} NatToStringIsDecimal(n: nat)
    ensures DecimalValue(NatToString(n)) == n && (n > 0 ==> NatToString(n)[0] != '0')
  {
    NatToStringDigits(n / 10);
    var s := NatToString(n);
    if n >= 10 {
      NatToStringIsDecimal(n / 10);
      assert s[..|s| - 1] == NatToString(n / 10) && s[0] == NatToString(n / 10)[0];
    } else {
      assert s[..0] == [] && DecimalValue([]) == 0;
    }
  }

  /** Keys in full: attempts are written in decimal, without leading zeros, after the names. */
  lemma KeysSpelledOut(exec: string, state: string, attempt: nat) returns (digits: string)
    ensures DecimalValue(digits) == attempt && (forall c :: c in digits ==> '0' <= c <= '9') && (attempt > 0 ==> digits != [] && digits[0] != '0')
    ensures StateKey(exec, state) == exec + (":" + state)
    ensures DocId(exec, state, attempt) == exec + (":" + (state + (":" + digits)))
    ensures ObjectKey(exec, state, attempt) == "executions/" + exec + "/states/" + state + "/attempt-" + digits + ".json"
  {
    digits := NatToString(attempt);
    NatToStringIsDecimal(attempt);
    NatToStringDigits(attempt);
    var dir := "executions/" + exec + "/states/" + state;
    assert "/" + ("states/" + state) == "/states/" + state;
    assert ObjectDir(exec, state) == dir;
    assert "/" + ObjectFile(attempt) == "/attempt-" + digits + ".json";
  }

  // ----- splitting at a separator

  /** If the separator does not occur in the left parts, the first occurrence splits uniquely. */
  lemma SplitAtFirst(l1: string, r1: string, l2: string, r2: string, sep: char)
    requires sep !in l1 && sep !in l2
    requires l1 + [sep] + r1 == l2 + [sep] + r2
    ensures l1 == l2 && r1 == r2
  {
    var s := l1 + [sep] + r1;
    assert s[|l1|] == sep && s[|l2|] == sep;
    assert forall i :: 0 <= i < |l1| ==> s[i] == l1[i];
    assert forall i :: 0 <= i < |l2| ==> s[i] == l2[i];
    assert |l1| == |l2|;
    assert s[..|l1|] == l1 && s[..|l2|] == l2;
    assert s[|l1| + 1..] == r1 && s[|l2| + 1..] == r2;
  }

  /** If the separator does not occur in the right parts, the last occurrence splits uniquely. */
  lemma SplitAtLast(l1: string, r1: string, l2: string, r2: string, sep: char)
    requires sep !in r1 && sep !in r2
    requires l1 + [sep] + r1 == l2 + [sep] + r2
    ensures l1 == l2 && r1 == r2
  {
    var s := l1 + [sep] + r1;
    assert s[|l1|] == sep && s[|l2|] == sep;
    assert forall i :: |l1| < i < |s| ==> s[i] == r1[i - |l1| - 1];
    assert forall i :: |l2| < i < |s| ==> s[i] == r2[i - |l2| - 1];
    assert |l1| == |l2|;
    assert s[..|l1|] == l1 && s[..|l2|] == l2;
    assert s[|l1| + 1..] == r1 && s[|l2| + 1..] == r2;
  }

  // ----- injectivity

  /** Within one execution two states never share a key, whatever their names contain. */
  lemma StateKeyInjective(exec: string)
    ensures forall a, b {:trigger StateKey(exec, a), StateKey(exec, b)} ::
              StateKey(exec, a) == StateKey(exec, b) ==> a == b
  {
    forall a, b | StateKey(exec, a) == StateKey(exec, b)
      ensures a == b
    {
      assert a == StateKey(exec, a)[|exec| + 1..] == StateKey(exec, b)[|exec| + 1..] == b;
    }
  }

  lemma StateKeyInjectiveAcross(e1: string, n1: string, e2: string, n2: string)
    requires ':' !in e1 && ':' !in e2
    ensures StateKey(e1, n1) == StateKey(e2, n2) <==> e1 == e2 && n1 == n2
  {
    if StateKey(e1, n1) == StateKey(e2, n2) {
      SplitAtFirst(e1, n1, e2, n2, ':');
    }
  }

  lemma DocIdInjective(e1: string, n1: string, a1: int, e2: string, n2: string, a2: int)
    requires ':' !in e1 && ':' !in e2
    ensures DocId(e1, n1, a1) == DocId(e2, n2, a2) <==> e1 == e2 && n1 == n2 && a1 == a2
  {
    if DocId(e1, n1, a1) == DocId(e2, n2, a2) {
      ItoaInjective(a1, a2);
      ItoaInjective(a2, a1);
      SplitAtLast(StateKey(e1, n1), Itoa(a1), StateKey(e2, n2), Itoa(a2), ':');
      StateKeyInjectiveAcross(e1, n1, e2, n2);
    }
  }

  lemma ObjectFileInjective(a: int, b: int)
    ensures '/' !in ObjectFile(a)
    ensures ObjectFile(a) == ObjectFile(b) ==> a == b
  {
    ItoaInjective(a, b);
    var f, g := ObjectFile(a), ObjectFile(b);
    assert Itoa(a) == f[8..|f| - 5] && Itoa(b) == g[8..|g| - 5];
  }

  lemma ObjectDirInjective(e1: string, n1: string, e2: string, n2: string)
    requires '/' !in e1 && '/' !in e2
    requires ObjectDir(e1, n1) == ObjectDir(e2, n2)
    ensures e1 == e2 && n1 == n2
  {
    var t1, t2 := "states/" + n1, "states/" + n2;
    assert e1 + "/" + t1 == ObjectDir(e1, n1)[11..] == ObjectDir(e2, n2)[11..] == e2 + "/" + t2;
    SplitAtFirst(e1, t1, e2, t2, '/');
    assert n1 == t1[7..] && n2 == t2[7..];
  }

  lemma ObjectKeyInjective(e1: string, n1: string, a1: int, e2: string, n2: string, a2: int)
    requires '/' !in e1 && '/' !in e2
    ensures ObjectKey(e1, n1, a1) == ObjectKey(e2, n2, a2) <==> e1 == e2 && n1 == n2 && a1 == a2
  {
    if ObjectKey(e1, n1, a1) == ObjectKey(e2, n2, a2) {
      ObjectFileInjective(a1, a2);
      ObjectFileInjective(a2, a1);
      SplitAtLast(ObjectDir(e1, n1), ObjectFile(a1), ObjectDir(e2, n2), ObjectFile(a2), '/');
      ObjectDirInjective(e1, n1, e2, n2);
    }
  }

  /** Two executions whose ids nest at a colon. */
  predicate Nested(e1: string, e2: string) {
    e1 + ":" <= e2 || e2 + ":" <= e1
  }

  lemma NestedCollide(e1: string, e2: string, attempt: int)
    requires e1 + ":" <= e2
    ensures exists n1, n2 :: StateKey(e1, n1) == StateKey(e2, n2) && DocId(e1, n1, attempt) == DocId(e2, n2, attempt)
  {
    var n1 := e2[|e1| + 1..] + ":";
    assert e2 == e1 + ":" + e2[|e1| + 1..];
    assert StateKey(e1, n1) == e2 + ":" == StateKey(e2, "");
    assert DocId(e1, n1, attempt) == StateKey(e1, n1) + ":" + Itoa(attempt);
    assert DocId(e2, "", attempt) == StateKey(e2, "") + ":" + Itoa(attempt);
  }

  lemma SharedKeyNests(e1: string, n1: string, e2: string, n2: string)
    requires StateKey(e1, n1) == StateKey(e2, n2)
    ensures e1 == e2 || Nested(e1, e2)
  {
    var s := StateKey(e1, n1);
    assert s[..|e1| + 1] == e1 + ":" && s[..|e2| + 1] == e2 + ":";
    assert s[..|e1|] == e1 && s[..|e2|] == e2;
  }

  /** Two executions can share a record key, and a document id at any one attempt, exactly when they are the
      same or one id followed by a colon begins the other. */
  lemma ExecutionsCollideExactly(e1: string, e2: string, attempt: int)
    ensures (exists n1, n2 :: StateKey(e1, n1) == StateKey(e2, n2)) <==> e1 == e2 || Nested(e1, e2)
    ensures (exists n1, n2 :: DocId(e1, n1, attempt) == DocId(e2, n2, attempt)) <==> e1 == e2 || Nested(e1, e2)
  {
    if e1 == e2 {
      assert StateKey(e1, "") == StateKey(e2, "") && DocId(e1, "", attempt) == DocId(e2, "", attempt);
    } else if e1 + ":" <= e2 {
      NestedCollide(e1, e2, attempt);
    } else if e2 + ":" <= e1 {
      NestedCollide(e2, e1, attempt);
    }
    forall n1, n2 | StateKey(e1, n1) == StateKey(e2, n2) ensures e1 == e2 || Nested(e1, e2) {
      SharedKeyNests(e1, n1, e2, n2);
    }
    forall n1, n2 | DocId(e1, n1, attempt) == DocId(e2, n2, attempt) ensures e1 == e2 || Nested(e1, e2) {
      ItoaInjective(attempt, attempt);
      SplitAtLast(StateKey(e1, n1), Itoa(attempt), StateKey(e2, n2), Itoa(attempt), ':');
      SharedKeyNests(e1, n1, e2, n2);
    }
  }
}
