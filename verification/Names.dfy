/** Kubernetes names built from execution ids, state names and service names. */
module Names {

  /** The Unicode classification the program consults; nothing is assumed of it beyond ASCII. */
  datatype Unicode = Unicode(
    isUpper: char -> bool, isLower: char -> bool, isDigit: char -> bool, isLetter: char -> bool, toLower: char -> char)

  predicate Lower(c: char) { 'a' <= c <= 'z' }
  predicate Alnum(c: char) { Lower(c) || '0' <= c <= '9' }
  predicate LabelChar(c: char) { Alnum(c) || c == '-' }

  /** How the tables classify lower-case ASCII letters, digits and the hyphen. */
  ghost predicate AsciiStandard(u: Unicode) {
    && (forall c :: LabelChar(c) ==> !u.isUpper(c))
    && (forall c :: Alnum(c) ==> u.isLetter(c) || u.isDigit(c))
    && !u.isLetter('-') && !u.isDigit('-')
  }

  // ----- toKebab

  /** What the rune at one position contributes before runs of other characters are collapsed. */
  function Spell(u: Unicode, runes: string, i: nat): string
    requires i < |runes|
  {
    var r := runes[i];
    if u.isUpper(r) then
      (if i > 0 && (u.isLower(runes[i - 1]) || u.isDigit(runes[i - 1]) ||
                    (u.isUpper(runes[i - 1]) && i + 1 < |runes| && u.isLower(runes[i + 1])))
       then "-" else "") + [u.toLower(r)]
    else if u.isLetter(r) || u.isDigit(r) then [r]
    else "-"
  }

  function SpellUpTo(u: Unicode, runes: string, i: nat): string
    requires i <= |runes|
  {
    if i == 0 then "" else SpellUpTo(u, runes, i - 1) + Spell(u, runes, i - 1)
  }

  /** Drop the leading characters outside a-z and 0-9. */
  function SkipOthers(s: string): (r: string)
    ensures |r| <= |s| && (r != [] ==> Alnum(r[0]))
  {
    if s == [] || Alnum(s[0]) then s else SkipOthers(s[1..])
  }

  /** Replace every maximal run of characters outside a-z and 0-9 by one hyphen. */
  function Collapse(s: string): string
    decreases |s|
  {
    if s == [] then []
    else if Alnum(s[0]) then [s[0]] + Collapse(s[1..])
    else "-" + Collapse(SkipOthers(s[1..]))
  }

  function Kebab(u: Unicode, s: string): string {
    Collapse(SpellUpTo(u, s, |s|))
  }

  lemma SpellNothing(u: Unicode, runes: string)
    ensures SpellUpTo(u, runes, 0) == ""
  {
  }

  lemma SpellNext(u: Unicode, runes: string, i: nat)
    requires i < |runes|
    ensures SpellUpTo(u, runes, i + 1) == SpellUpTo(u, runes, i) + Spell(u, runes, i)
  {
  }

  method ToKebab(u: Unicode, s: string) returns (r: string)
    requires !u.isLower('\0')
    ensures r == Kebab(u, s)
  {
    hide Collapse, SpellUpTo;
    var b := "";
    SpellNothing(u, s);
    for i := 0 to |s|
      invariant b == SpellUpTo(u, s, i)
    {
      var rune := s[i];
      var piece := "";
      if u.isUpper(rune) {
        if i > 0 {
          var prev := s[i - 1];
          var next := '\0';
          if i + 1 < |s| {
            next := s[i + 1];
          }
          if u.isLower(prev) || u.isDigit(prev) || (u.isUpper(prev) && u.isLower(next)) {
            piece := "-";
          }
        }
        piece := piece + [u.toLower(rune)];
      } else if u.isLetter(rune) || u.isDigit(rune) {
        piece := [rune];
      } else {
        piece := "-";
      }
      SpellNext(u, s, i);
      b := b + piece;
    }
    r := Collapse(b);
  }

  // ----- shape of a kebab name

  /** Letters, digits and hyphens, no two hyphens in a row. */
  predicate Tidy(s: string) {
    && (forall i :: 0 <= i < |s| ==> LabelChar(s[i]))
    && forall i :: 0 < i < |s| ==> s[i - 1] != '-' || s[i] != '-'
  }

  lemma {:induction false} CollapseIsTidy(s: string)
    ensures Tidy(Collapse(s))
    ensures s != [] && Alnum(s[0]) ==> Collapse(s) != [] && Collapse(s)[0] == s[0]
    decreases |s|
  {
    if s == [] {
    } else if Alnum(s[0]) {
      CollapseIsTidy(s[1..]);
    } else {
      var rest := SkipOthers(s[1..]);
      CollapseIsTidy(rest);
    }
  }

  lemma {:induction false} TidyIsCollapsed(s: string)
    requires Tidy(s)
    ensures Collapse(s) == s
    decreases |s|
  {
    if s != [] {
      var tail := s[1..];
      assert s == [s[0]] + tail;
      assert forall i :: 0 <= i < |tail| ==> tail[i] == s[i + 1];
      TidyIsCollapsed(tail);
      if !Alnum(s[0]) && tail != [] {
        assert Alnum(tail[0]);
      }
    }
  }

  lemma {:induction false} LabelIsSpelledAsIs(u: Unicode, s: string, i: nat)
    requires AsciiStandard(u) && i <= |s| && forall j :: 0 <= j < |s| ==> LabelChar(s[j])
    ensures SpellUpTo(u, s, i) == s[..i]
  {
    if i > 0 {
      LabelIsSpelledAsIs(u, s, i - 1);
      assert LabelChar(s[i - 1]);
      assert Spell(u, s, i - 1) == [s[i - 1]];
      assert s[..i] == s[..i - 1] + [s[i - 1]];
    }
  }

  /** A kebab name is tidy, and converting it again changes nothing. */
  lemma KebabIsTidyAndIdempotent(u: Unicode, s: string)
    ensures Tidy(Kebab(u, s))
    ensures AsciiStandard(u) ==> Kebab(u, Kebab(u, s)) == Kebab(u, s)
  {
    CollapseIsTidy(SpellUpTo(u, s, |s|));
    var k := Kebab(u, s);
    if AsciiStandard(u) {
      LabelIsSpelledAsIs(u, k, |k|);
      assert k[..|k|] == k;
      TidyIsCollapsed(k);
    }
  }

  // ----- where words are split

  /** A character that is spelled as a letter or digit of a label. */
  predicate WordChar(u: Unicode, c: char) {
    if u.isUpper(c) then Alnum(u.toLower(c)) else Alnum(c) && (u.isLetter(c) || u.isDigit(c))
  }

  /** A word boundary before an upper-case letter: after a lower-case letter or digit, or after an upper-case
      one when a lower-case letter follows, so that a run of capitals splits before its last. */
  predicate Boundary(u: Unicode, a: string, b: string) {
    && a != [] && b != [] && WordChar(u, a[|a| - 1]) && WordChar(u, b[0]) && u.isUpper(b[0])
    && if u.isUpper(a[|a| - 1]) then !u.isLower(b[0]) && |b| > 1 && u.isLower(b[1])
       else u.isLower(a[|a| - 1]) || u.isDigit(a[|a| - 1])
  }

  /** A character of no class the conversion keeps, such as an underscore. */
  predicate Separator(u: Unicode, c: char) {
    !u.isUpper(c) && !u.isLower(c) && !u.isLetter(c) && !u.isDigit(c)
  }

  /** b does not change how a is spelled, and begins with sep when it follows a. */
  predicate Joins(u: Unicode, a: string, b: string, sep: string) {
    && a != [] && b != [] && (u.isUpper(a[|a| - 1]) ==> !u.isLower(b[0]))
    && Spell(u, a + b, |a|) == sep + Spell(u, b, 0)
  }

  lemma {:induction false} SpellLeft(u: Unicode, a: string, b: string, sep: string, i: nat)
    requires Joins(u, a, b, sep) && i <= |a|
    ensures SpellUpTo(u, a + b, i) == SpellUpTo(u, a, i)
  {
    hide Spell, Joins;
    if i > 0 {
      SpellLeft(u, a, b, sep, i - 1);
      SpellBefore(u, a, b, sep, i - 1);
    }
  }

  lemma SpellBefore(u: Unicode, a: string, b: string, sep: string, i: nat)
    requires Joins(u, a, b, sep) && i < |a|
    ensures Spell(u, a + b, i) == Spell(u, a, i)
  {
    assert (a + b)[i] == a[i];
    assert i > 0 ==> (a + b)[i - 1] == a[i - 1];
    assert i + 1 < |a| ==> (a + b)[i + 1] == a[i + 1];
    assert i + 1 == |a| ==> (a + b)[i + 1] == b[0];
  }

  lemma BoundaryJoins(u: Unicode, a: string, b: string)
    requires Boundary(u, a, b)
    ensures Joins(u, a, b, "-")
  {
    assert (a + b)[|a|] == b[0] && (a + b)[|a| - 1] == a[|a| - 1];
    assert |b| > 1 ==> (a + b)[|a| + 1] == b[1];
  }

  lemma SeparatorJoins(u: Unicode, a: string, c: char, b: string)
    requires a != [] && b != [] && Separator(u, c)
    ensures Joins(u, a, [c] + b, "") && Joins(u, [c], b, "")
  {
    assert (a + ([c] + b))[|a|] == c && ([c] + b)[1] == b[0];
    assert |b| > 1 ==> ([c] + b)[2] == b[1];
    assert "" + Spell(u, [c] + b, 0) == "-" && "" + Spell(u, b, 0) == Spell(u, b, 0);
  }

  lemma SpellBeyond(u: Unicode, a: string, b: string, i: nat)
    requires 1 <= i < |b|
    ensures Spell(u, a + b, |a| + i) == Spell(u, b, i)
  {
    assert (a + b)[|a| + i] == b[i] && (a + b)[|a| + i - 1] == b[i - 1];
    assert i + 1 < |b| ==> (a + b)[|a| + i + 1] == b[i + 1];
  }

  lemma {:induction false} SpellRight(u: Unicode, a: string, b: string, sep: string, i: nat)
    requires Joins(u, a, b, sep) && 1 <= i <= |b|
    ensures SpellUpTo(u, a + b, |a| + i) == SpellUpTo(u, a, |a|) + sep + SpellUpTo(u, b, i)
  {
    hide Spell;
    var all, left := a + b, SpellUpTo(u, a, |a|);
    assert SpellUpTo(u, all, |a| + i) == SpellUpTo(u, all, |a| + (i - 1)) + Spell(u, all, |a| + (i - 1));
    if i == 1 {
      SpellLeft(u, a, b, sep, |a|);
      assert SpellUpTo(u, b, 1) == SpellUpTo(u, b, 0) + Spell(u, b, 0) == Spell(u, b, 0);
      Reassociate(left, sep, Spell(u, b, 0));
    } else {
      SpellRight(u, a, b, sep, i - 1);
      SpellBeyond(u, a, b, i - 1);
      Reassociate(left + sep, SpellUpTo(u, b, i - 1), Spell(u, b, i - 1));
    }
  }

  lemma Reassociate(x: string, y: string, z: string)
    ensures x + y + z == x + (y + z)
  {
  }

  lemma {:induction false} SkipJoin(x: string, z: string)
    requires x != [] && Alnum(x[|x| - 1])
    ensures var r := SkipOthers(x); r != [] && r[|r| - 1] == x[|x| - 1] && SkipOthers(x + z) == r + z
    decreases |x|
  {
    assert (x + z)[0] == x[0];
    if !Alnum(x[0]) {
      assert (x + z)[1..] == x[1..] + z;
      SkipJoin(x[1..], z);
    }
  }

  lemma CollapseUnfolds(c: char, tail: string)
    ensures Alnum(c) ==> Collapse([c] + tail) == [c] + Collapse(tail)
    ensures !Alnum(c) ==> Collapse([c] + tail) == "-" + Collapse(SkipOthers(tail))
  {
    assert ([c] + tail)[1..] == tail;
  }

  lemma {:induction false} CollapseJoin(x: string, z: string)
    requires x != [] && Alnum(x[|x| - 1])
    ensures Collapse(x + z) == Collapse(x) + Collapse(z)
    decreases |x|
  {
    hide Collapse, SkipOthers, Alnum;
    var c, tail := x[0], x[1..];
    assert x == [c] + tail && x + z == [c] + (tail + z);
    CollapseUnfolds(c, tail);
    CollapseUnfolds(c, tail + z);
    if tail == [] {
      assert tail + z == z;
      CollapseOfNone();
      assert [c] + "" == [c];
    } else if Alnum(c) {
      CollapseJoin(tail, z);
      Reassociate([c], Collapse(tail), Collapse(z));
    } else {
      SkipJoin(tail, z);
      SkipShrinks(tail);
      CollapseJoin(SkipOthers(tail), z);
      Reassociate("-", Collapse(SkipOthers(tail)), Collapse(z));
    }
  }

  lemma CollapseOfNone()
    ensures Collapse("") == ""
  {
  }

  lemma SkipShrinks(s: string)
    ensures |SkipOthers(s)| <= |s|
  {
  }

  lemma SpellEnds(u: Unicode, a: string)
    requires a != [] && WordChar(u, a[|a| - 1])
    ensures var x := SpellUpTo(u, a, |a|); x != [] && Alnum(x[|x| - 1])
  {
  }

  lemma {:induction false} SpellStarts(u: Unicode, b: string, i: nat)
    requires b != [] && WordChar(u, b[0]) && 1 <= i <= |b|
    ensures var y := SpellUpTo(u, b, i); y != [] && Alnum(y[0])
  {
    if i == 1 {
      assert SpellUpTo(u, b, 1) == Spell(u, b, 0);
    } else {
      SpellStarts(u, b, i - 1);
    }
  }

  lemma SkipNothing(y: string)
    requires y != [] && Alnum(y[0])
    ensures SkipOthers(y) == y
  {
  }

  lemma CollapseWords(x: string, y: string)
    requires x != [] && Alnum(x[|x| - 1]) && y != [] && Alnum(y[0])
    ensures Collapse(x + "-" + y) == Collapse(x) + "-" + Collapse(y)
  {
    hide Collapse, SkipOthers;
    Reassociate(x, "-", y);
    CollapseJoin(x, "-" + y);
    CollapseUnfolds('-', y);
    SkipNothing(y);
    Reassociate(Collapse(x), "-", Collapse(y));
  }

  /** Words split at a boundary: the parts are converted on their own and joined by one hyphen. */
  lemma KebabSplitsWords(u: Unicode, a: string, b: string)
    requires Boundary(u, a, b)
    ensures Kebab(u, a + b) == Kebab(u, a) + "-" + Kebab(u, b)
  {
    hide SpellUpTo, Collapse;
    BoundaryJoins(u, a, b);
    SpellRight(u, a, b, "-", |b|);
    SpellEnds(u, a);
    SpellStarts(u, b, |b|);
    CollapseWords(SpellUpTo(u, a, |a|), SpellUpTo(u, b, |b|));
  }

  /** A separator between two words becomes one hyphen. */
  lemma KebabSplitsAtSeparators(u: Unicode, a: string, c: char, b: string)
    requires Separator(u, c) && a != [] && b != [] && WordChar(u, a[|a| - 1]) && WordChar(u, b[0])
    ensures Kebab(u, a + [c] + b) == Kebab(u, a) + "-" + Kebab(u, b)
  {
    hide Collapse, Spell, Joins;
    var x, y := SpellUpTo(u, a, |a|), SpellUpTo(u, b, |b|);
    SeparatorJoins(u, a, c, b);
    SpellRight(u, a, [c] + b, "", |[c] + b|);
    SpellRight(u, [c], b, "", |b|);
    SeparatorIsHyphen(u, c);
    assert a + [c] + b == a + ([c] + b) && x + "" == x && "-" + "" == "-";
    Reassociate(x, "-", y);
    SpellEnds(u, a);
    SpellStarts(u, b, |b|);
    CollapseWords(x, y);
  }

  lemma SeparatorIsHyphen(u: Unicode, c: char)
    requires Separator(u, c)
    ensures SpellUpTo(u, [c], 1) == "-"
  {
    assert SpellUpTo(u, [c], 1) == SpellUpTo(u, [c], 0) + Spell(u, [c], 0);
  }

  // ----- labels

  /** A label as in section 2.3.1 of RFC 1035, in lower case. */
  predicate IsLabel(s: string) {
    && 1 <= |s| <= 63
    && Lower(s[0])
    && Alnum(s[|s| - 1])
    && forall i :: 0 <= i < |s| ==> LabelChar(s[i])
  }

  function TrimHyphens(s: string): string {
    if s != [] && s[|s| - 1] == '-' then TrimHyphens(s[..|s| - 1]) else s
  }

  /** Trimming stops at the latest at a leading part that ends in a letter or digit. */
  lemma {:induction false} TrimKeepsStem(s: string, stem: nat)
    requires 0 < stem <= |s| && s[stem - 1] != '-'
    ensures TrimHyphens(s) <= s && |TrimHyphens(s)| >= stem
    ensures var t := TrimHyphens(s); t[|t| - 1] != '-'
    ensures forall i :: |TrimHyphens(s)| <= i < |s| ==> s[i] == '-'
    decreases |s|
  {
    if s[|s| - 1] == '-' {
      TrimKeepsStem(s[..|s| - 1], stem);
    }
  }

  function WithoutHyphens(s: string): string {
    if s == [] then []
    else (if s[0] == '-' then [] else [s[0]]) + WithoutHyphens(s[1..])
  }

  lemma {:induction false} WithoutHyphensIsAlnum(s: string)
    requires forall i :: 0 <= i < |s| ==> LabelChar(s[i])
    ensures forall i :: 0 <= i < |WithoutHyphens(s)| ==> Alnum(WithoutHyphens(s)[i])
    ensures |WithoutHyphens(s)| <= |s|
  {
    if s != [] {
      WithoutHyphensIsAlnum(s[1..]);
    }
  }

  /** Hyphens are dropped and everything else is kept, in order. */
  lemma {:induction false} WithoutHyphensJoins(a: string, b: string)
    ensures WithoutHyphens(a + b) == WithoutHyphens(a) + WithoutHyphens(b)
  {
    if a == [] {
      assert a + b == b;
    } else {
      assert (a + b)[1..] == a[1..] + b && (a + b)[0] == a[0];
      WithoutHyphensJoins(a[1..], b);
      Reassociate(if a[0] == '-' then [] else [a[0]], WithoutHyphens(a[1..]), WithoutHyphens(b));
    }
  }

  lemma {:induction false} WithoutHyphensKeepsTheRest(a: string)
    requires '-' !in a
    ensures WithoutHyphens(a) == a && WithoutHyphens("-") == ""
  {
    if a != [] {
      assert a == [a[0]] + a[1..] && a[0] in a;
      WithoutHyphensKeepsTheRest(a[1..]);
    }
  }

  /** Cut to 63 characters and trimmed, a name that starts with "kflow" and has only label characters is a label. */
  lemma CutAndTrimmedIsLabel(name: string)
    requires "kflow" <= name && forall i :: 0 <= i < |name| ==> LabelChar(name[i])
    ensures IsLabel(TrimHyphens(Cut(name, 63)))
  {
    var cut := Cut(name, 63);
    assert cut[4] == "kflow"[4] == 'w';
    assert cut[0] == "kflow"[0] == 'k';
    TrimKeepsStem(cut, 5);
  }

  function Cut(s: string, n: nat): string {
    if |s| > n then s[..n] else s
  }

  /** The longest part of the full name that fits 63 characters and does not end in a hyphen. */
  predicate IsShortened(name: string, full: string) {
    && name <= full && |name| <= 63
    && (name != [] ==> name[|name| - 1] != '-')
    && forall i :: |name| <= i < |full| && i < 63 ==> full[i] == '-'
  }

  /** Job names are labels, whatever the state is called. */
  method JobName(u: Unicode, execID: string, stateName: string) returns (name: string)
    requires forall i :: 0 <= i < |execID| ==> LabelChar(execID[i])
    requires !u.isLower('\0')
    ensures IsLabel(name)
    ensures IsShortened(name, "kflow-" + WithoutHyphens(Cut(execID, 16)) + "-" + Kebab(u, stateName))
  {
    var id := Cut(execID, 16);
    WithoutHyphensIsAlnum(id);
    id := WithoutHyphens(id);
    id := Cut(id, 16);
    var kebab := ToKebab(u, stateName);
    KebabIsTidyAndIdempotent(u, stateName);
    name := "kflow-" + id + "-" + kebab;
    name := Finish(name);
  }

  /** Service names are labels, whatever the service is called. */
  method SvcName(u: Unicode, serviceName: string) returns (name: string)
    requires !u.isLower('\0')
    ensures IsLabel(name) && IsShortened(name, "kflow-svc-" + Kebab(u, serviceName))
  {
    var kebab := ToKebab(u, serviceName);
    KebabIsTidyAndIdempotent(u, serviceName);
    name := "kflow-svc-" + kebab;
    name := Finish(name);
  }

  method Finish(full: string) returns (name: string)
    requires "kflow" <= full && forall i :: 0 <= i < |full| ==> LabelChar(full[i])
    ensures IsLabel(name) && IsShortened(name, full)
  {
    name := Cut(full, 63);
    CutAndTrimmedIsLabel(full);
    TrimKeepsStem(name, 5);
    name := TrimHyphens(name);
  }
}
