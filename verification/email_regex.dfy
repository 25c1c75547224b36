/** The e-mail check of the trial-signup form: the regular expression
    `\S+@\S+\.\S+` used with `test`, i.e. without anchors, so it accepts any
    string that has a matching block somewhere inside it. */
module EmailRegex {

  import opened Text

  /** Every character of `s` is matched by `\S`. */
  predicate NoSpace(s: string) {
    forall k | 0 <= k < |s| :: !IsSpace(s[k])
  }

  /** The pattern matches with its `@` at index `at` and its `\.` at index `dot`.
      Each `\S+` can be shortened to one character at the outer ends, so a
      match is fixed by these two positions: a non-space just before `@`, one or
      more non-spaces between `@` and `.`, and a non-space just after `.`. */
  predicate MatchAt(s: string, at: int, dot: int) {
    && 0 < at && at + 1 < dot && dot + 1 < |s|
    && !IsSpace(s[at - 1]) && s[at] == '@'
    && (forall k | at < k < dot :: !IsSpace(s[k]))
    && s[dot] == '.' && !IsSpace(s[dot + 1])
  }

  /** `/\S+@\S+\.\S+/.test(s)`. */
  predicate Matches(s: string) {
    exists at, dot | 0 < at < dot < |s| :: MatchAt(s, at, dot)
  }

  /** A block "a@m.z" (a and z single non-space characters, m a non-empty run
      of non-spaces) anywhere inside a string makes the pattern match. */
  lemma ContainedBlockMatches(p: string, a: char, m: string, z: char, q: string)
    requires !IsSpace(a) && !IsSpace(z) && |m| > 0 && NoSpace(m)
    ensures Matches(p + [a] + "@" + m + "." + [z] + q)
  {
    var s := p + [a] + "@" + m + "." + [z] + q;
    var at, dot := |p| + 1, |p| + 2 + |m|;
    assert s[at - 1] == a && s[at] == '@' && s[dot] == '.' && s[dot + 1] == z;
    forall k | at < k < dot
      ensures !IsSpace(s[k])
    {
      assert s[k] == m[k - at - 1];
    }
    assert MatchAt(s, at, dot);
  }

  /** Conversely, every accepted string contains such a block: it splits as
      p + [a] + "@" + m + "." + [z] + q with a, z and m free of white space. */
  lemma MatchHasBlock(s: string) returns (p: string, a: char, m: string, z: char, q: string)
    requires Matches(s)
    ensures s == p + [a] + "@" + m + "." + [z] + q
    ensures !IsSpace(a) && !IsSpace(z) && |m| > 0 && NoSpace(m)
  {
    var at, dot :| 0 < at < dot < |s| && MatchAt(s, at, dot);
    p, a, m, z, q := s[..at - 1], s[at - 1], s[at + 1..dot], s[dot + 1], s[dot + 2..];
    forall k | 0 <= k < |m|
      ensures !IsSpace(m[k])
    {
      assert m[k] == s[at + 1 + k];
    }
    assert s == s[..at - 1] + [s[at - 1]] + [s[at]] + s[at + 1..dot] + [s[dot]] + [s[dot + 1]] + s[dot + 2..];
  }

  /** The pattern is unanchored: text before or after an accepted string never
      makes it rejected. */
  lemma PaddingKeepsMatch(s: string, before: string, after: string)
    requires Matches(s)
    ensures Matches(before + s + after)
  {
    var p, a, m, z, q := MatchHasBlock(s);
    ContainedBlockMatches(before + p, a, m, z, q + after);
    assert before + s + after == (before + p) + [a] + "@" + m + "." + [z] + (q + after);
  }

  /** A string without '@' is rejected. */
  lemma NoAtRejected(s: string)
    requires forall k | 0 <= k < |s| :: s[k] != '@'
    ensures !Matches(s)
  {
  }

  /** Text around an address is accepted: the check does not ask the whole
      value to be an address. */
  lemma SurroundedAddressAccepted()
    ensures Matches("mail me at a@b.c, thanks")
  {
    assert MatchAt("mail me at a@b.c, thanks", 12, 14);
  }

  /** A string in which every '@' is at the start or follows white space is
      rejected: the `\S+` before '@' needs a non-space right before it. */
  lemma SpaceBeforeEveryAtRejected(s: string)
    requires forall k | 0 <= k < |s| && s[k] == '@' :: k == 0 || IsSpace(s[k - 1])
    ensures !Matches(s)
  {
  }

  /** A string in which no '.' follows an '@' at distance two or more is
      rejected: the `\S+` between '@' and '.' needs at least one character. */
  lemma NoDotAfterAtRejected(s: string)
    requires forall i, j | 0 <= i < j < |s| && s[i] == '@' && s[j] == '.' :: j == i + 1
    ensures !Matches(s)
  {
  }

  /** Shapes the pattern rejects: white space before '@', nothing between '@'
      and '.', and nothing after '.'. */
  lemma MalformedRejected()
    ensures !Matches("a @b.c")
    ensures !Matches("a@.c")
    ensures !Matches("a@b.")
  {
  }

  /** Decides the pattern in one left-to-right pass. It keeps the start of the
      current run of non-spaces and the first '@' in that run that has a
      non-space before it; the earliest such '@' leaves the most room for the
      '.', so a match ends at `i` exactly when `s[i-1]` is '.' at least two
      places after that '@'. */
  method Scan(s: string) returns (found: bool)
    ensures found <==> Matches(s)
  {
    var i, runStart, at := 0, 0, -1;
    while i < |s|
      invariant 0 <= runStart <= i <= |s|
      invariant runStart == 0 || IsSpace(s[runStart - 1])
      invariant forall k | runStart <= k < i :: !IsSpace(s[k])
      invariant at == -1 ==> forall k | runStart < k < i :: s[k] != '@'
      invariant at != -1 ==> runStart < at < i && s[at] == '@'
      invariant at != -1 ==> forall k | runStart < k < at :: s[k] != '@'
      invariant forall x, y | 0 < x < y < |s| && MatchAt(s, x, y) :: y + 1 >= i
    {
      if IsSpace(s[i]) {
        runStart, at := i + 1, -1;
      } else {
        if at != -1 && at + 3 <= i && s[i - 1] == '.' {
          assert MatchAt(s, at, i - 1);
          return true;
        }
        if s[i] == '@' && runStart < i && at == -1 {
          at := i;
        }
      }
      i := i + 1;
    }
    return false;
  }
}
