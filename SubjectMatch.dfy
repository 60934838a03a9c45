/**
 * `subject.match(/RFP:\s*(.+?)(?:\s|$)/i)` followed by `rfpMatch[1].trim()`, from
 * `processVendorResponse` in backend/src/controllers/proposalController.js,
 * written out as the regular-expression engine runs it: the leftmost "RFP:"
 * (any case) where the rest can match, `\s*` taken greedily and given back one
 * character at a time, and the lazy group ending at the first whitespace or at
 * the end.
 */
module SubjectMatch {
  import opened Wrappers
  import opened Text
  import EmailService

  /** A case-insensitive "RFP:" at index `k` (only ASCII letters fold to r, f and p). */
  predicate MarkerAt(s: string, k: int) {
    0 <= k && k + 4 <= |s| && Lower(s[k]) == 'r' && Lower(s[k + 1]) == 'f' && Lower(s[k + 2]) == 'p' && s[k + 3] == ':'
  }

  /** The length of the whitespace run starting at `i`: what greedy `\s*` takes first. */
  function SpaceRun(s: string, i: nat): (n: nat)
    requires i <= |s|
    ensures i + n <= |s|
    ensures forall t :: i <= t < i + n ==> IsSpace(s[t])
    ensures i + n == |s| || !IsSpace(s[i + n])
    decreases |s| - i
  {
    if i < |s| && IsSpace(s[i]) then 1 + SpaceRun(s, i + 1) else 0
  }

  /** The first index at or after `i` that holds whitespace, or the end: where `(?:\s|$)` first holds. */
  function TokenEnd(s: string, i: nat): (e: nat)
    requires i <= |s|
    ensures i <= e <= |s|
    ensures forall t :: i <= t < e ==> !IsSpace(s[t])
    ensures e == |s| || IsSpace(s[e])
    decreases |s| - i
  {
    if i == |s| || IsSpace(s[i]) then i else TokenEnd(s, i + 1)
  }

  /**
   * The group when `\s*` has taken `j` characters after the marker ending at
   * `p`: `.+?` needs one character that is not a line terminator and then
   * stops at the first whitespace or the end; otherwise `\s*` gives one back.
   */
  function Backtrack(s: string, p: nat, j: nat): (g: Option<string>)
    requires p + j <= |s|
    ensures g.Some? ==> |g.value| >= 1 && NoSpace(g.value[1..])
    decreases j
  {
    if p + j < |s| && !IsLineTerminator(s[p + j]) then
      var e := TokenEnd(s, p + j + 1);
      var g := s[p + j..e];
      assert forall t :: 0 <= t < |g| - 1 ==> g[1..][t] == s[p + j + 1 + t];
      Some(g)
    else if j == 0 then None
    else Backtrack(s, p, j - 1)
  }

  /** The match attempt at index `k`. */
  function MatchAt(s: string, k: nat): (g: Option<string>)
    ensures g.Some? ==> MarkerAt(s, k) && |g.value| >= 1 && NoSpace(g.value[1..])
  {
    if MarkerAt(s, k) then Backtrack(s, k + 4, SpaceRun(s, k + 4)) else None
  }

  /** The leftmost successful attempt at or after `k`. */
  function SearchFrom(s: string, k: nat): (g: Option<string>)
    ensures g.Some? ==> exists m | k <= m <= |s| :: MarkerAt(s, m)
    ensures g.Some? ==> |g.value| >= 1 && NoSpace(g.value[1..])
    decreases |s| - k
  {
    if k + 4 > |s| then None
    else
      var m := MatchAt(s, k);
      if m.Some? then m else SearchFrom(s, k + 1)
  }

  /** Trimming a string whose tail holds no whitespace leaves no whitespace at all. */
  lemma TrimOfTailNoSpace(g: string)
    requires |g| >= 1 && NoSpace(g[1..])
    ensures NoSpace(Trim(g))
  {
    var r := Trim(g);
    var a := TrimOffset(g);
    TrimSlice(g);
    if r != [] {
      assert !IsSpace(r[0]);
      forall t | 1 <= t < |r| ensures !IsSpace(r[t]) {
        assert r[t] == g[1..][a + t - 1];
      }
    }
  }

  /**
   * The title token taken from a subject: `None` when the pattern does not
   * match. A token never contains whitespace, and is found only where the
   * subject has an "RFP:" marker.
   */
  function ExtractRfpTitle(subject: string): (r: Option<string>)
    ensures r.Some? ==> NoSpace(r.value)
    ensures r.Some? ==> exists m | 0 <= m <= |subject| :: MarkerAt(subject, m)
  {
    var g := SearchFrom(subject, 0);
    if g.None? then None
    else
      TrimOfTailNoSpace(g.value);
      Some(Trim(g.value))
  }

  /** A subject without any "RFP:" marker yields no title. */
  lemma NoMarkerNoTitle(subject: string)
    requires forall m :: 0 <= m <= |subject| ==> !MarkerAt(subject, m)
    ensures ExtractRfpTitle(subject) == None
  {
  }

  // ---------------------------------------------------------------------------
  // The subject sent out, `RFP: <title>`, read back
  // ---------------------------------------------------------------------------

  lemma PrefixShape(t: string)
    ensures MarkerAt(EmailService.SubjectPrefix + t, 0)
    ensures IsSpace((EmailService.SubjectPrefix + t)[4]) && !IsLineTerminator((EmailService.SubjectPrefix + t)[4])
    ensures forall i :: 0 <= i < |t| ==> (EmailService.SubjectPrefix + t)[5 + i] == t[i]
  {
  }

  /** Past index 5 the subject is the title shifted by five. */
  lemma {:induction false} TokenEndShift(t: string, i: nat)
    requires i <= |t|
    ensures TokenEnd(EmailService.SubjectPrefix + t, 5 + i) == 5 + TokenEnd(t, i)
    decreases |t| - i
  {
    PrefixShape(t);
    if i < |t| && !IsSpace(t[i]) {
      TokenEndShift(t, i + 1);
    }
  }

  /** After `RFP:` the greedy `\s*` takes the one space before a title that starts with a non-space. */
  lemma PrefixSpaceRun(t: string)
    requires t != [] && !IsSpace(t[0])
    ensures SpaceRun(EmailService.SubjectPrefix + t, 4) == 1
  {
    var s := EmailService.SubjectPrefix + t;
    PrefixShape(t);
    assert s[5] == t[0];
    assert SpaceRun(s, 5) == 0;
  }

  /** With that space taken, the lazy group is the title up to its first whitespace. */
  lemma PrefixGroup(t: string)
    requires t != [] && !IsSpace(t[0])
    ensures Backtrack(EmailService.SubjectPrefix + t, 4, 1) == Some(t[..TokenEnd(t, 1)])
  {
    var s := EmailService.SubjectPrefix + t;
    PrefixShape(t);
    assert s[5] == t[0];
    assert !IsLineTerminator(s[5]);
    TokenEndShift(t, 1);
    var e := TokenEnd(t, 1);
    assert s[5..5 + e] == t[..e];
  }

  /** For a title that starts with a non-space, the group is the title's first word. */
  lemma FirstWordRead(t: string)
    requires t != [] && !IsSpace(t[0])
    ensures SearchFrom(EmailService.SubjectPrefix + t, 0) == Some(t[..TokenEnd(t, 1)])
  {
    var s := EmailService.SubjectPrefix + t;
    PrefixShape(t);
    PrefixSpaceRun(t);
    PrefixGroup(t);
    assert MatchAt(s, 0) == Some(t[..TokenEnd(t, 1)]);
  }

  /** On `RFP: ` alone, `\s*` gives its space back and the group is that space. */
  lemma EmptyTitleGroup()
    ensures SearchFrom(EmailService.SubjectPrefix, 0) == Some(" ")
  {
    var s := EmailService.SubjectPrefix;
    assert MarkerAt(s, 0);
    assert SpaceRun(s, 4) == 1;
    assert TokenEnd(s, 5) == 5;
    assert s[4..5] == " ";
    assert Backtrack(s, 4, 0) == Some(" ");
  }

  lemma SpaceTrimsToEmpty()
    ensures Trim(" ") == ""
  {
    assert " "[1..] == [];
    assert TrimStart(" ") == TrimStart([]);
  }

  /** The subject built from an empty title reads back as the empty title. */
  lemma EmptyTitleRead()
    ensures ExtractRfpTitle(EmailService.Subject("")) == Some("")
  {
    assert EmailService.Subject("") == EmailService.SubjectPrefix;
    EmptyTitleGroup();
    SpaceTrimsToEmpty();
  }

  /**
   * The subject round trip: reading back `RFP: <title>` gives the title
   * exactly when the title contains no whitespace.
   */
  lemma SubjectRoundTrip(t: string)
    ensures ExtractRfpTitle(EmailService.Subject(t)) == Some(t) <==> NoSpace(t)
  {
    if NoSpace(t) {
      if t == [] {
        assert EmailService.SubjectPrefix + t == EmailService.SubjectPrefix;
        EmptyTitleRead();
      } else {
        FirstWordRead(t);
        assert TokenEnd(t, 1) == |t|;
        assert t[..|t|] == t;
        assert Trimmed(t);
      }
    }
  }

  /**
   * For a stored title (non-empty, trimmed) the token read back from its
   * subject is the title's first word, which the title itself matches.
   */
  lemma StoredTitleReadsFirstWord(t: string)
    requires t != [] && Trimmed(t)
    ensures ExtractRfpTitle(EmailService.Subject(t)) == Some(t[..TokenEnd(t, 1)])
    ensures MatchesIgnoringCase(t, t[..TokenEnd(t, 1)])
  {
    FirstWordRead(t);
    var w := t[..TokenEnd(t, 1)];
    assert forall i :: 0 <= i < |w| ==> w[i] == t[i];
    assert NoSpace(w);
    assert Trimmed(w);
    PrefixMatches(t, TokenEnd(t, 1));
  }

  /** The token read back from a stored title whose first whitespace is at `e`. */
  lemma TitleUpToFirstSpace(t: string, e: nat)
    requires t != [] && Trimmed(t)
    requires 1 <= e < |t| && IsSpace(t[e])
    requires forall i :: 1 <= i < e ==> !IsSpace(t[i])
    ensures ExtractRfpTitle(EmailService.Subject(t)) == Some(t[..e])
  {
    StoredTitleReadsFirstWord(t);
    TokenEndIsFirstSpace(t, 1, e);
  }

  lemma TokenEndIsFirstSpace(s: string, i: nat, e: nat)
    requires i <= e < |s| && IsSpace(s[e])
    requires forall t :: i <= t < e ==> !IsSpace(s[t])
    ensures TokenEnd(s, i) == e
    decreases e - i
  {
    if i < e {
      TokenEndIsFirstSpace(s, i + 1, e);
    }
  }

  /**
   * Two stored titles that share their first word, such as "Office Chairs"
   * and "Office Laptops", give the same token, so a reply to either can
   * reach the RFP whose title the lookup finds first.
   */
  lemma SharedFirstWord(a: string, b: string, e: nat)
    requires Trimmed(a) && Trimmed(b) && 1 <= e < |a| && e < |b| && a[..e] == b[..e]
    requires IsSpace(a[e]) && IsSpace(b[e])
    requires forall i :: 1 <= i < e ==> !IsSpace(a[i])
    ensures ExtractRfpTitle(EmailService.Subject(a)) == Some(a[..e])
    ensures ExtractRfpTitle(EmailService.Subject(b)) == Some(a[..e])
  {
    TitleUpToFirstSpace(a, e);
    forall i | 1 <= i < e ensures !IsSpace(b[i]) {
      assert b[i] == b[..e][i] == a[..e][i] == a[i];
    }
    TitleUpToFirstSpace(b, e);
  }

  // ---------------------------------------------------------------------------
  // Replies: a prefix without a marker in it is skipped
  // ---------------------------------------------------------------------------

  lemma {:induction false} SpaceRunShift(pre: string, s: string, i: nat)
    requires i <= |s|
    ensures SpaceRun(pre + s, |pre| + i) == SpaceRun(s, i)
    decreases |s| - i
  {
    if i < |s| {
      assert (pre + s)[|pre| + i] == s[i];
      SpaceRunShift(pre, s, i + 1);
    }
  }

  lemma {:induction false} TokenEndShiftBy(pre: string, s: string, i: nat)
    requires i <= |s|
    ensures TokenEnd(pre + s, |pre| + i) == |pre| + TokenEnd(s, i)
    decreases |s| - i
  {
    if i < |s| {
      assert (pre + s)[|pre| + i] == s[i];
      TokenEndShiftBy(pre, s, i + 1);
    }
  }

  lemma {:induction false} BacktrackShift(pre: string, s: string, p: nat, j: nat)
    requires p + j <= |s|
    ensures Backtrack(pre + s, |pre| + p, j) == Backtrack(s, p, j)
    decreases j
  {
    var s' := pre + s;
    if p + j < |s| {
      assert s'[|pre| + p + j] == s[p + j];
    }
    if p + j < |s| && !IsLineTerminator(s[p + j]) {
      TokenEndShiftBy(pre, s, p + j + 1);
      var e := TokenEnd(s, p + j + 1);
      assert s'[|pre| + p + j..|pre| + e] == s[p + j..e];
    } else if j > 0 {
      BacktrackShift(pre, s, p, j - 1);
    }
  }

  lemma MatchAtShift(pre: string, s: string, k: nat)
    requires k <= |s|
    ensures MatchAt(pre + s, |pre| + k) == MatchAt(s, k)
  {
    var s' := pre + s;
    if k + 4 <= |s| {
      assert s'[|pre| + k] == s[k] && s'[|pre| + k + 1] == s[k + 1];
      assert s'[|pre| + k + 2] == s[k + 2] && s'[|pre| + k + 3] == s[k + 3];
      if MarkerAt(s, k) {
        SpaceRunShift(pre, s, k + 4);
        BacktrackShift(pre, s, k + 4, SpaceRun(s, k + 4));
      }
    } else {
      assert !MarkerAt(s', |pre| + k);
    }
  }

  lemma {:induction false} SearchShift(pre: string, s: string, k: nat)
    requires k <= |s|
    ensures SearchFrom(pre + s, |pre| + k) == SearchFrom(s, k)
    decreases |s| - k
  {
    if k + 4 <= |s| {
      MatchAtShift(pre, s, k);
      SearchShift(pre, s, k + 1);
    }
  }

  lemma {:induction false} SkipUnmarked(pre: string, s: string, k: nat)
    requires k <= |pre|
    requires forall m :: k <= m < |pre| ==> !MarkerAt(pre + s, m)
    ensures SearchFrom(pre + s, k) == SearchFrom(s, 0)
    decreases |pre| - k
  {
    if k == |pre| {
      SearchShift(pre, s, 0);
    } else if k + 4 > |pre + s| {
      // too short for a marker anywhere: both searches fail
      assert SearchFrom(s, 0) == None;
    } else {
      SkipUnmarked(pre, s, k + 1);
    }
  }

  /**
   * A reply's subject, with a prefix such as "Re: " that holds no "RFP:"
   * marker, reads the same title as the original subject.
   */
  lemma ReplyPrefixSkipped(pre: string, s: string)
    requires forall m :: 0 <= m < |pre| ==> !MarkerAt(pre + s, m)
    ensures ExtractRfpTitle(pre + s) == ExtractRfpTitle(s)
  {
    SkipUnmarked(pre, s, 0);
  }

  /** "Re: RFP: <title>" reads the same title as "RFP: <title>". */
  lemma ReplyRead(t: string)
    ensures ExtractRfpTitle("Re: " + EmailService.Subject(t)) == ExtractRfpTitle(EmailService.Subject(t))
  {
    var s := "Re: " + (EmailService.SubjectPrefix + t);
    assert s[1] == 'e' && s[2] == ':' && s[3] == ' ' && s[4] == 'R';
    assert forall m :: 0 <= m < 4 ==> !MarkerAt(s, m);
    ReplyPrefixSkipped("Re: ", EmailService.SubjectPrefix + t);
  }
}
