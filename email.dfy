/**
 * `is_valid_email`: the address is trimmed and lower-cased, then matched against
 *   ^[a-zA-Z0-9.!#$%&'*+/=?^_`{|}~-]+@L(\.L)*$
 * where a label L is an alphanumeric, optionally followed by up to 61
 * alphanumerics or hyphens and a final alphanumeric.
 *
 * The model decides the grammar by finding the '@' and splitting the domain on
 * '.'; `MatchesPattern` restates the regular expression as a grammar over
 * concatenations and `IsValidEmailMatchesPattern` proves the two agree.
 */
module Email {
  import opened Wrappers
  import opened Strings

  predicate IsAlnum(c: char) {
    ('a' <= c <= 'z') || ('A' <= c <= 'Z') || ('0' <= c <= '9')
  }

  /** The characters of the character class before the '@'. */
  predicate IsLocalChar(c: char) {
    IsAlnum(c) || c in ".!#$%&'*+/=?^_`{|}~-"
  }

  predicate IsLocalPart(s: string) {
    |s| >= 1 && forall i :: 0 <= i < |s| ==> IsLocalChar(s[i])
  }

  /** One domain label: 1 to 63 alphanumerics or hyphens, alphanumeric at both ends. */
  predicate IsLabel(s: string) {
    && 1 <= |s| <= 63
    && IsAlnum(s[0]) && IsAlnum(s[|s| - 1])
    && forall i :: 0 <= i < |s| ==> IsAlnum(s[i]) || s[i] == '-'
  }

  predicate AllLabels(labels: seq<string>) {
    forall i :: 0 <= i < |labels| ==> IsLabel(labels[i])
  }

  /** The normalised text the pattern is matched against. */
  function Canonical(email: string): string {
    Lower(Strip(email))
  }

  /** is_valid_email. */
  function IsValidEmail(email: string): bool {
    email != "" && AcceptsCanonical(Canonical(email))
  }

  /** `e` is `local` + "@" + the labels joined by '.', each piece well formed. */
  predicate IsDecomposition(e: string, local: string, labels: seq<string>) {
    && |labels| >= 1
    && IsLocalPart(local)
    && AllLabels(labels)
    && e == local + "@" + Join(labels, '.')
  }

  /** The regular expression, read as a grammar. */
  ghost predicate MatchesPattern(e: string) {
    exists local, labels :: IsDecomposition(e, local, labels)
  }

  /** The verdict on a normalised text `e`, as `IsValidEmail` takes it after its emptiness test. */
  predicate AcceptsCanonical(e: string) {
    match IndexOf(e, '@')
    case None => false
    case Some(at) => IsLocalPart(e[..at]) && AllLabels(Split(e[at + 1..], '.'))
  }

  lemma AcceptsYieldsDecomposition(e: string)
    requires AcceptsCanonical(e)
    ensures MatchesPattern(e)
  {
    var at := IndexOf(e, '@').value;
    var labels := Split(e[at + 1..], '.');
    JoinSplit(e[at + 1..], '.');
    assert e == e[..at] + "@" + e[at + 1..];
    assert IsDecomposition(e, e[..at], labels);
  }

  lemma LocalPartHasNoAt(local: string)
    requires IsLocalPart(local)
    ensures '@' !in local
  {
    assert forall i :: 0 <= i < |local| ==> local[i] != '@';
  }

  lemma LabelsHaveNoDot(labels: seq<string>)
    requires AllLabels(labels)
    ensures forall i :: 0 <= i < |labels| ==> '.' !in labels[i]
  {
    forall i | 0 <= i < |labels|
      ensures '.' !in labels[i]
    {
      assert IsLabel(labels[i]);
      assert forall j :: 0 <= j < |labels[i]| ==> labels[i][j] != '.';
    }
  }

  lemma DecompositionAccepted(e: string, local: string, labels: seq<string>)
    requires IsDecomposition(e, local, labels)
    ensures AcceptsCanonical(e)
  {
    LocalPartHasNoAt(local);
    assert e[..|local|] == local;
    IndexOfAt(e, '@', |local|);
    assert e[|local| + 1..] == Join(labels, '.');
    LabelsHaveNoDot(labels);
    SplitJoin(labels, '.');
  }

  /** The decision procedure accepts exactly the addresses the regular expression matches. */
  lemma IsValidEmailMatchesPattern(email: string)
    ensures IsValidEmail(email) <==> email != "" && MatchesPattern(Canonical(email))
  {
    var e := Canonical(email);
    if IsValidEmail(email) {
      AcceptsYieldsDecomposition(e);
    }
    if email != "" && MatchesPattern(e) {
      var local, labels :| IsDecomposition(e, local, labels);
      DecompositionAccepted(e, local, labels);
    }
  }

  /** Counts the occurrences of `c` in `s`. */
  function Count(s: string, c: char): nat
    decreases |s|
  {
    if s == [] then 0 else (if s[0] == c then 1 else 0) + Count(s[1..], c)
  }

  lemma {:induction false} CountAbsent(s: string, c: char)
    requires c !in s
    ensures Count(s, c) == 0
    decreases |s|
  {
    if s != [] {
      assert s[1..] == s[|s| - |s[1..]|..];
      assert forall x :: x in s[1..] ==> x in s;
      CountAbsent(s[1..], c);
    }
  }

  lemma {:induction false} CountAppend(a: string, b: string, c: char)
    ensures Count(a + b, c) == Count(a, c) + Count(b, c)
    decreases |a|
  {
    if a == [] {
      assert a + b == b;
    } else {
      assert (a + b)[0] == a[0];
      assert (a + b)[1..] == a[1..] + b;
      CountAppend(a[1..], b, c);
    }
  }

  lemma {:induction false} JoinNoAt(labels: seq<string>)
    requires |labels| >= 1 && AllLabels(labels)
    ensures '@' !in Join(labels, '.')
    decreases |labels|
  {
    assert IsLabel(labels[0]);
    assert forall j :: 0 <= j < |labels[0]| ==> labels[0][j] != '@';
    if |labels| > 1 {
      assert AllLabels(labels[1..]) by {
        forall i | 0 <= i < |labels[1..]| ensures IsLabel(labels[1..][i]) {
          assert labels[1..][i] == labels[i + 1];
        }
      }
      JoinNoAt(labels[1..]);
    }
  }

  /**
   * What an accepted address looks like: the input is non-empty, its normalised
   * form has exactly one '@', a non-empty local part of allowed characters, and a
   * domain whose '.'-separated labels are 1 to 63 characters long and neither
   * start nor end with '-'.
   */
  lemma AcceptedShape(email: string)
    requires IsValidEmail(email)
    ensures email != ""
    ensures Count(Canonical(email), '@') == 1
    ensures
      var e := Canonical(email);
      var at := IndexOf(e, '@').value;
      && IsLocalPart(e[..at])
      && forall l :: l in Split(e[at + 1..], '.') ==>
           1 <= |l| <= 63 && l[0] != '-' && l[|l| - 1] != '-'
  {
    var e := Canonical(email);
    var at := IndexOf(e, '@').value;
    OneAt(e);
    LabelShapes(Split(e[at + 1..], '.'));
  }

  lemma LabelShapes(labels: seq<string>)
    requires AllLabels(labels)
    ensures forall l :: l in labels ==> 1 <= |l| <= 63 && l[0] != '-' && l[|l| - 1] != '-'
  {
    forall l | l in labels
      ensures 1 <= |l| <= 63 && l[0] != '-' && l[|l| - 1] != '-'
    {
      var i :| 0 <= i < |labels| && labels[i] == l;
      assert IsLabel(labels[i]);
    }
  }

  /** An accepted normalised text holds exactly one '@'. */
  lemma OneAt(e: string)
    requires AcceptsCanonical(e)
    ensures Count(e, '@') == 1
  {
    var at := IndexOf(e, '@').value;
    var domain := e[at + 1..];
    JoinSplit(domain, '.');
    JoinNoAt(Split(domain, '.'));
    assert e == e[..at] + "@" + domain;
    CountAbsent(e[..at], '@');
    CountAbsent(domain, '@');
    CountAppend(e[..at] + "@", domain, '@');
    CountAppend(e[..at], "@", '@');
  }

  /** The verdict does not depend on letter case. */
  lemma CaseInsensitive(a: string, b: string)
    requires Lower(a) == Lower(b)
    ensures IsValidEmail(a) == IsValidEmail(b)
  {
    LowerStrip(a);
    LowerStrip(b);
    assert Canonical(a) == Canonical(b);
    assert a == "" <==> b == "" by {
      assert |Lower(a)| == |a| && |Lower(b)| == |b|;
    }
  }
}
