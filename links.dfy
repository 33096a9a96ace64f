/**
 * `convertUrlsToLinks` of the admin projects page: the description is split
 * with the capturing, global regular expression `/(https?:\/\/[^\s]+)/g`,
 * and each resulting part becomes a link when it matches the expression and
 * stays plain text otherwise.
 */
module Links {
  import opened Text

  /** One rendered piece of a description. */
  datatype Segment = Plain(text: string) | Link(url: string)

  function SegmentText(g: Segment): string {
    match g
    case Plain(t) => t
    case Link(u) => u
  }

  /** The parts joined in order. */
  function Concat(parts: seq<string>): string {
    if parts == [] then "" else parts[0] + Concat(parts[1..])
  }

  /** The text of the segments joined in order. */
  function TextOf(segs: seq<Segment>): string {
    Concat(seq(|segs|, k requires 0 <= k < |segs| => SegmentText(segs[k])))
  }

  /** The length of a `https://` or `http://` scheme starting at `i` (0 when there is none). */
  function SchemeLength(s: string, i: nat): (n: nat)
    requires i <= |s|
    ensures n == 0 || n == 7 || n == 8
    ensures i + n <= |s|
  {
    if i + 7 <= |s| && s[i] == 'h' && s[i + 1] == 't' && s[i + 2] == 't' && s[i + 3] == 'p' then
      if s[i + 4] == ':' && s[i + 5] == '/' && s[i + 6] == '/' then 7
      else if i + 8 <= |s| && s[i + 4] == 's' && s[i + 5] == ':' && s[i + 6] == '/' && s[i + 7] == '/' then 8
      else 0
    else 0
  }

  /** Which scheme `SchemeLength` found. */
  lemma SchemeLengthMeans(s: string, i: nat)
    requires i <= |s|
    ensures SchemeLength(s, i) == 8 <==> StartsWith(s[i..], "https://")
    ensures SchemeLength(s, i) == 7 <==> StartsWith(s[i..], "http://")
  {
    var t := s[i..];
    if StartsWith(t, "http://") {
      assert t[..7][4] == ':';
      assert forall j :: 0 <= j < 7 ==> s[i + j] == t[..7][j];
    }
    if StartsWith(t, "https://") {
      assert forall j :: 0 <= j < 8 ==> s[i + j] == t[..8][j];
    }
    if SchemeLength(s, i) == 7 {
      assert t[..7] == "http://";
    }
    if SchemeLength(s, i) == 8 {
      assert t[..8] == "https://";
    }
  }

  /** The longest run of non-whitespace characters starting at `i` (greedy `[^\s]+`). */
  function NonSpaceRun(s: string, i: nat): (n: nat)
    requires i <= |s|
    ensures i + n <= |s|
    decreases |s| - i
  {
    if i < |s| && !IsSpace(s[i]) then 1 + NonSpaceRun(s, i + 1) else 0
  }

  /** The run has no whitespace in it and stops at whitespace or at the end of the text. */
  lemma {:induction false} NonSpaceRunSpan(s: string, i: nat)
    requires i <= |s|
    ensures forall k :: i <= k < i + NonSpaceRun(s, i) ==> !IsSpace(s[k])
    ensures i + NonSpaceRun(s, i) == |s| || IsSpace(s[i + NonSpaceRun(s, i)])
    decreases |s| - i
  {
    if i < |s| && !IsSpace(s[i]) {
      NonSpaceRunSpan(s, i + 1);
    }
  }

  /** The length of the match of `https?:\/\/[^\s]+` anchored at `i` (0 when it does not match there). */
  function MatchLength(s: string, i: nat): (n: nat)
    requires i <= |s|
    ensures i + n <= |s|
  {
    var k := SchemeLength(s, i);
    if k == 0 then 0
    else
      var r := NonSpaceRun(s, i + k);
      if r == 0 then 0 else k + r
  }

  /** A whole URL as the expression matches it: a scheme, at least one more character, no whitespace. */
  predicate IsUrlToken(t: string) {
    && ((StartsWith(t, "https://") && |t| > 8) || (StartsWith(t, "http://") && |t| > 7))
    && forall k :: 0 <= k < |t| ==> !IsSpace(t[k])
  }

  /** `t.match(urlRegex)` succeeds: the expression matches somewhere in `t`. */
  predicate ContainsUrl(t: string) {
    exists i :: 0 <= i < |t| && MatchLength(t, i) > 0
  }

  /** The first position at or after `q` where a match starts, or `|s|` when there is none. */
  function NextMatch(s: string, q: nat): (r: nat)
    requires q <= |s|
    ensures q <= r <= |s|
    ensures r < |s| ==> MatchLength(s, r) > 0
    ensures forall k :: q <= k < r ==> MatchLength(s, k) == 0
    decreases |s| - q
  {
    if q == |s| || MatchLength(s, q) > 0 then q else NextMatch(s, q + 1)
  }

  /**
   * `s.split(urlRegex)` on the text from `p` on: each match closes the plain
   * part before it and is itself emitted as a part (it is the captured
   * group); the rest after the last match is the final part.
   */
  function SplitParts(s: string, p: nat): seq<string>
    requires p <= |s|
    decreases |s| - p
  {
    var q := NextMatch(s, p);
    if q == |s| then [s[p..]]
    else
      var e := q + MatchLength(s, q);
      [s[p..q], s[q..e]] + SplitParts(s, e)
  }

  /** How one part is rendered: `part.match(urlRegex)` decides between a link and plain text. */
  function Classify(part: string): (g: Segment)
    ensures SegmentText(g) == part
    ensures g.Link? <==> ContainsUrl(part)
  {
    if ContainsUrl(part) then Link(part) else Plain(part)
  }

  /** `convertUrlsToLinks(text)`. */
  function Linkify(text: string): seq<Segment> {
    var parts := SplitParts(text, 0);
    seq(|parts|, k requires 0 <= k < |parts| => Classify(parts[k]))
  }

  /** A match is a URL token and ends at whitespace or at the end of the text. */
  lemma MatchIsToken(s: string, i: nat)
    requires i <= |s| && MatchLength(s, i) > 0
    ensures IsUrlToken(s[i..i + MatchLength(s, i)])
    ensures i + MatchLength(s, i) == |s| || IsSpace(s[i + MatchLength(s, i)])
  {
    var n := MatchLength(s, i);
    var t := s[i..i + n];
    var k := SchemeLength(s, i);
    SchemeLengthMeans(s, i);
    NonSpaceRunSpan(s, i + k);
    assert t[..k] == s[i..][..k];
    forall j | 0 <= j < |t| ensures !IsSpace(t[j]) {
      assert t[j] == s[i + j];
      if j < k {
        assert s[i + j] == s[i..][..k][j];
      }
    }
  }

  /** A URL token, read on its own, matches from its first character to its last. */
  lemma TokenMatchesWhole(t: string)
    requires IsUrlToken(t)
    ensures MatchLength(t, 0) == |t|
    ensures ContainsUrl(t)
  {
    assert t[0..] == t;
    SchemeLengthMeans(t, 0);
    var k := SchemeLength(t, 0);
    assert k > 0;
    assert !IsSpace(t[k]);
    NonSpaceRunSpan(t, k);
  }

  /** A match inside a slice of `s` is also a match in `s` at the same place. */
  lemma SliceMatch(s: string, p: nat, q: nat, i: nat)
    requires p <= q <= |s| && i <= q - p
    requires MatchLength(s[p..q], i) > 0
    ensures MatchLength(s, p + i) > 0
  {
    var t := s[p..q];
    var k := SchemeLength(t, i);
    SchemeLengthMeans(t, i);
    SchemeLengthMeans(s, p + i);
    assert t[i..] == s[p + i..q];
    assert t[i..][..k] == s[p + i..][..k];
    assert SchemeLength(s, p + i) == k;
    assert t[i + k] == s[p + i + k];
  }

  /** No part that lies wholly in a stretch without matches contains a URL. */
  lemma NoUrlInStretch(s: string, p: nat, q: nat)
    requires p <= q <= |s|
    requires forall k :: p <= k < q ==> MatchLength(s, k) == 0
    ensures !ContainsUrl(s[p..q])
  {
    if ContainsUrl(s[p..q]) {
      var i :| 0 <= i < q - p && MatchLength(s[p..q], i) > 0;
      SliceMatch(s, p, q, i);
      assert false;
    }
  }

  /** A URL part is followed by the empty last part or by a part starting with whitespace. */
  predicate BreakAfter(parts: seq<string>, k: nat)
    requires k + 1 < |parts|
  {
    if parts[k + 1] == "" then k + 2 == |parts| else IsSpace(parts[k + 1][0])
  }

  /**
   * The shape of a split: an odd number of parts, plain stretches without
   * any URL at even positions, URL tokens at odd positions, each URL part
   * followed by a break.
   */
  predicate Alternating(parts: seq<string>) {
    && |parts| % 2 == 1
    && (forall k :: 0 <= k < |parts| && k % 2 == 0 ==> !ContainsUrl(parts[k]))
    && (forall k :: 0 <= k < |parts| && k % 2 == 1 ==> IsUrlToken(parts[k]))
    && (forall k :: 0 <= k < |parts| && k % 2 == 1 ==> k + 1 < |parts| && BreakAfter(parts, k))
  }

  /** A single plain stretch is a split. */
  lemma AlternatingSingle(a: string, parts: seq<string>)
    requires parts == [a] && !ContainsUrl(a)
    ensures Alternating(parts)
  {
  }

  /** A plain stretch and a URL followed by a split that starts at a break form a split. */
  lemma AlternatingCons(a: string, b: string, rest: seq<string>, parts: seq<string>)
    requires !ContainsUrl(a) && IsUrlToken(b) && Alternating(rest)
    requires if rest[0] == "" then |rest| == 1 else IsSpace(rest[0][0])
    requires parts == [a, b] + rest
    ensures Alternating(parts)
  {
    assert |parts| == |rest| + 2;
    forall k | 0 <= k < |parts| && k % 2 == 0
      ensures !ContainsUrl(parts[k])
    {
      if k >= 2 {
        assert parts[k] == rest[k - 2] && (k - 2) % 2 == 0;
      }
    }
    forall k | 0 <= k < |parts| && k % 2 == 1
      ensures IsUrlToken(parts[k])
    {
      if k >= 2 {
        assert parts[k] == rest[k - 2] && (k - 2) % 2 == 1;
      }
    }
    forall k | 0 <= k < |parts| && k % 2 == 1
      ensures k + 1 < |parts| && BreakAfter(parts, k)
    {
      if k >= 2 {
        assert (k - 2) % 2 == 1;
        assert k - 1 < |rest| && BreakAfter(rest, k - 2);
        assert parts[k + 1] == rest[k - 1];
      } else {
        assert parts[k + 1] == rest[0];
      }
    }
  }

  lemma ConcatCons(a: string, b: string, rest: seq<string>)
    ensures Concat([a, b] + rest) == a + b + Concat(rest)
  {
    assert ([a, b] + rest)[1..] == [b] + rest;
    assert ([b] + rest)[1..] == rest;
  }

  /**
   * The split resumed right after a match: the text there starts with
   * whitespace (where no match can start) or has ended, so its first part
   * starts with whitespace or is the empty last part.
   */
  lemma RestAfterMatch(s: string, e: nat)
    requires e <= |s|
    requires e == |s| || IsSpace(s[e])
    ensures var rest := SplitParts(s, e);
      rest != [] && if rest[0] == "" then |rest| == 1 else IsSpace(rest[0][0])
  {
    if e < |s| {
      assert SchemeLength(s, e) == 0;
      assert NextMatch(s, e) > e;
    }
  }

  lemma SlicesJoin(s: string, p: nat, q: nat, e: nat)
    requires p <= q <= e <= |s|
    ensures s[p..q] + s[q..e] + s[e..] == s[p..]
  {
  }

  /** One step of the split: the stretch before the next match and the match, then the split after it. */
  lemma SplitStep(s: string, p: nat)
    requires p <= |s|
    ensures NextMatch(s, p) == |s| ==> SplitParts(s, p) == [s[p..]]
    ensures NextMatch(s, p) < |s| ==>
      var q := NextMatch(s, p);
      var e := q + MatchLength(s, q);
      q < e <= |s| && SplitParts(s, p) == [s[p..q], s[q..e]] + SplitParts(s, e)
  {
  }

  /** Joining a stretch, a match and the parts after the match. */
  lemma JoinStep(s: string, p: nat, q: nat, e: nat, rest: seq<string>)
    requires p <= q <= e <= |s| && Concat(rest) == s[e..]
    ensures Concat([s[p..q], s[q..e]] + rest) == s[p..]
  {
    ConcatCons(s[p..q], s[q..e], rest);
    SlicesJoin(s, p, q, e);
  }

  /** A match is a URL token, and the split after it starts at a break. */
  lemma MatchThenBreak(s: string, q: nat, e: nat)
    requires q <= |s| && MatchLength(s, q) > 0 && e == q + MatchLength(s, q)
    ensures e <= |s| && IsUrlToken(s[q..e])
    ensures var rest := SplitParts(s, e);
      rest != [] && if rest[0] == "" then |rest| == 1 else IsSpace(rest[0][0])
  {
    MatchIsToken(s, q);
    RestAfterMatch(s, e);
  }

  /** Joining the parts of a split gives back the text from `p` on. */
  lemma {:induction false} SplitConcat(s: string, p: nat)
    requires p <= |s|
    ensures Concat(SplitParts(s, p)) == s[p..]
    decreases |s| - p
  {
    SplitStep(s, p);
    var q := NextMatch(s, p);
    if q == |s| {
      assert Concat([s[p..]]) == s[p..] + Concat([]);
    } else {
      var e := q + MatchLength(s, q);
      SplitConcat(s, e);
      JoinStep(s, p, q, e, SplitParts(s, e));
    }
  }

  /** The parts of a split alternate between plain stretches and URLs. */
  lemma {:induction false} SplitAlternates(s: string, p: nat)
    requires p <= |s|
    ensures Alternating(SplitParts(s, p))
    decreases |s| - p
  {
    SplitStep(s, p);
    var q := NextMatch(s, p);
    NoUrlInStretch(s, p, q);
    if q == |s| {
      assert s[p..] == s[p..q];
      AlternatingSingle(s[p..], SplitParts(s, p));
    } else {
      var e := q + MatchLength(s, q);
      SplitAlternates(s, e);
      MatchThenBreak(s, q, e);
      AlternatingCons(s[p..q], s[q..e], SplitParts(s, e), SplitParts(s, p));
    }
  }

  /** Segments carrying the parts' texts, in order, join to the parts joined. */
  lemma SegmentsCarryParts(segs: seq<Segment>, parts: seq<string>)
    requires |segs| == |parts|
    requires forall k :: 0 <= k < |segs| ==> SegmentText(segs[k]) == parts[k]
    ensures TextOf(segs) == Concat(parts)
  {
    assert seq(|segs|, k requires 0 <= k < |segs| => SegmentText(segs[k])) == parts;
  }

  /** Each segment of `Linkify(text)` is the part of the split at the same position, as a link exactly at odd positions. */
  lemma LinkifyParts(text: string)
    ensures |Linkify(text)| == |SplitParts(text, 0)|
    ensures forall k :: 0 <= k < |Linkify(text)| ==>
      Linkify(text)[k] == if k % 2 == 1 then Link(SplitParts(text, 0)[k]) else Plain(SplitParts(text, 0)[k])
  {
    var parts := SplitParts(text, 0);
    SplitAlternates(text, 0);
    forall k | 0 <= k < |parts| && k % 2 == 1 ensures ContainsUrl(parts[k]) {
      TokenMatchesWhole(parts[k]);
    }
  }

  /** Joining the segments of `convertUrlsToLinks(text)` in order gives back `text`. */
  lemma LinkifyRoundTrip(text: string)
    ensures TextOf(Linkify(text)) == text
  {
    var parts := SplitParts(text, 0);
    var segs := Linkify(text);
    LinkifyParts(text);
    forall k | 0 <= k < |segs|
      ensures SegmentText(segs[k]) == parts[k]
    {
    }
    SegmentsCarryParts(segs, parts);
    SplitConcat(text, 0);
    assert text[0..] == text;
  }

  /**
   * The shape of `convertUrlsToLinks(text)`: plain text and links
   * alternate, starting and ending with plain text; every link is a whole
   * `http://` or `https://` URL running up to the next whitespace or the
   * end of the text (the segment after it is the empty last one or starts
   * with whitespace); and no plain segment contains a URL.
   */
  lemma LinkifyShape(text: string)
    ensures var segs := Linkify(text);
      && |segs| % 2 == 1
      && (forall k :: 0 <= k < |segs| ==> (segs[k].Link? <==> k % 2 == 1))
      && (forall k :: 0 <= k < |segs| && segs[k].Link? ==> IsUrlToken(segs[k].url))
      && (forall k :: 0 <= k < |segs| && segs[k].Link? ==>
            k + 1 < |segs| &&
            (if SegmentText(segs[k + 1]) == "" then k + 2 == |segs| else IsSpace(SegmentText(segs[k + 1])[0])))
      && (forall k :: 0 <= k < |segs| && segs[k].Plain? ==> !ContainsUrl(segs[k].text))
  {
    var parts := SplitParts(text, 0);
    var segs := Linkify(text);
    LinkifyParts(text);
    SplitAlternates(text, 0);
    forall k | 0 <= k < |segs| && segs[k].Link?
      ensures k + 1 < |segs|
      ensures if SegmentText(segs[k + 1]) == "" then k + 2 == |segs| else IsSpace(SegmentText(segs[k + 1])[0])
    {
      assert k + 1 < |parts| && BreakAfter(parts, k);
    }
  }
}
