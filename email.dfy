/**
 * `isValidEmail` of FrontEnd/src/utils/helpers.js, the regular expression
 * `^[^\s@]+@[^\s@]+\.[^\s@]+$`, written as an explicit predicate: no whitespace,
 * exactly one '@' and not at the start, and after it a '.' that is neither the first
 * nor the last character of the domain.
 */
module Email {
  import opened Js

  /** A run of `[^\s@]+`: non-empty, no whitespace, no '@'. */
  predicate Part(x: string) {
    x != [] && NoSpace(x) && '@' !in x
  }

  /** The domain contains a '.' strictly inside it. */
  predicate DotInside(domain: string) {
    |domain| >= 3 && '.' in domain[1..|domain| - 1]
  }

  predicate IsValidEmail(s: string) {
    NoSpace(s) && Count(s, '@') == 1
    && var i := FirstIndex(s, '@');
       0 < i < |s| && DotInside(s[i + 1..])
  }

  /** The strings the regular expression matches: A@B.C with three `[^\s@]+` runs. */
  ghost predicate MatchesRegex(s: string) {
    exists a: string, b: string, c: string ::
      Part(a) && Part(b) && Part(c) && s == a + "@" + b + "." + c
  }

  /** An accepted address has exactly one '@' and no whitespace. */
  lemma ValidShape(s: string)
    requires IsValidEmail(s)
    ensures Count(s, '@') == 1 && NoSpace(s)
    ensures s[0] != '@'
  {
    var i := FirstIndex(s, '@');
    assert s[0] in s[..i];
  }

  /** The explicit predicate accepts exactly the strings the regular expression matches. */
  lemma ValidIffRegex(s: string)
    ensures IsValidEmail(s) <==> MatchesRegex(s)
  {
    if IsValidEmail(s) {
      ValidMatches(s);
    }
    if MatchesRegex(s) {
      var a: string, b: string, c: string :|
        Part(a) && Part(b) && Part(c) && s == a + "@" + b + "." + c;
      MatchesValid(a, b, c);
    }
  }

  lemma ValidMatches(s: string)
    requires IsValidEmail(s)
    ensures MatchesRegex(s)
  {
    var i := FirstIndex(s, '@');
    var a := s[..i];
    var d := s[i + 1..];
    assert s == a + "@" + d;
    OneAtSplits(a, d);
    NoSpaceSlice(s, 0, i);
    NoSpaceSlice(s, i + 1, |s|);
    var j := DotAt(d);
    var b := d[..j];
    var c := d[j + 1..];
    assert d == b + "." + c;
    NoSpaceSlice(d, 0, j);
    NoSpaceSlice(d, j + 1, |d|);
    NotInSlice(d, 0, j, '@');
    NotInSlice(d, j + 1, |d|, '@');
    assert Part(a) && Part(b) && Part(c);
    assert s == a + "@" + b + "." + c;
  }

  lemma MatchesValid(a: string, b: string, c: string)
    requires Part(a) && Part(b) && Part(c)
    ensures IsValidEmail(a + "@" + b + "." + c)
  {
    var s := a + "@" + b + "." + c;
    var d := b + "." + c;
    assert s == a + "@" + d;
    NoSpaceAppend(a, "@");
    NoSpaceAppend(b, ".");
    NoSpaceAppend(b + ".", c);
    NoSpaceAppend(a + "@", d);
    PartsCountOneAt(a, b, c);
    FirstIndexAt(a, d, '@');
    assert s[|a| + 1..] == d;
    assert d[1..|d| - 1][|b| - 1] == '.';
  }

  lemma NoSpaceAppend(x: string, y: string)
    requires NoSpace(x) && NoSpace(y)
    ensures NoSpace(x + y)
  {
    forall k | 0 <= k < |x + y| ensures !IsSpace((x + y)[k]) {
      if k >= |x| {
        assert (x + y)[k] == y[k - |x|];
      }
    }
  }

  lemma NoSpaceSlice(s: string, lo: nat, hi: nat)
    requires lo <= hi <= |s| && NoSpace(s)
    ensures NoSpace(s[lo..hi])
  {
    forall k | 0 <= k < hi - lo ensures !IsSpace(s[lo..hi][k]) {
      assert s[lo..hi][k] == s[lo + k];
    }
  }

  lemma NotInSlice(s: string, lo: nat, hi: nat, ch: char)
    requires lo <= hi <= |s| && ch !in s
    ensures ch !in s[lo..hi]
  {
    forall k | 0 <= k < hi - lo ensures s[lo..hi][k] != ch {
      assert s[lo..hi][k] == s[lo + k];
    }
  }

  /** A string with a single '@' has none on either side of it. */
  lemma OneAtSplits(a: string, d: string)
    requires Count(a + "@" + d, '@') == 1
    ensures '@' !in a && '@' !in d
  {
    CountAppend(a + "@", d, '@');
    CountAppend(a, "@", '@');
    CountAbsent(a, '@');
    CountAbsent(d, '@');
  }

  /** Three '@'-free parts joined by '@' and '.' hold a single '@'. */
  lemma PartsCountOneAt(a: string, b: string, c: string)
    requires '@' !in a && '@' !in b && '@' !in c
    ensures Count(a + "@" + (b + "." + c), '@') == 1
  {
    CountAbsent(a, '@');
    CountAbsent(b, '@');
    CountAbsent(c, '@');
    CountAppend(a + "@", b + "." + c, '@');
    CountAppend(a, "@", '@');
    CountAppend(b + ".", c, '@');
    CountAppend(b, ".", '@');
  }

  /** The first ch of a + [ch] + d is the one after a, when a has none. */
  lemma FirstIndexAt(a: string, d: string, ch: char)
    requires ch !in a
    ensures FirstIndex(a + [ch] + d, ch) == |a|
  {
    var s := a + [ch] + d;
    var i := FirstIndex(s, ch);
    assert s[|a|] == ch;
    assert forall k :: 0 <= k < |a| ==> s[k] == a[k];
    assert forall k :: 0 <= k < i ==> s[..i][k] == s[k];
  }

  /** The position of a '.' strictly inside the domain. */
  lemma DotAt(d: string) returns (j: nat)
    requires DotInside(d)
    ensures 1 <= j < |d| - 1 && d[j] == '.'
  {
    var m := d[1..|d| - 1];
    var k :| 0 <= k < |m| && m[k] == '.';
    assert d[k + 1] == '.';
    j := k + 1;
  }
}
