/**
 * Structured-output recovery for text returned by the text-generation service
 * (backend/src/services/JsonParserService.ts): strip web-search artifacts, cut the
 * JSON out of a fenced block or out of the outermost braces, and parse it with at
 * most one repair round-trip. The JSON parser and the repair call are oracles.
 */
module JsonParser {
  import opened Wrappers
  import opened Seqs
  import opened Text

  // ---------------------------------------------------------------------------
  // Citation markers: the global replacement of /\[\d+\]/ by the empty string
  // ---------------------------------------------------------------------------

  /** A citation marker: `[`, one or more digits, `]`. */
  predicate IsCitation(c: string) {
    |c| >= 3 && c[0] == '[' && c[|c| - 1] == ']' && forall k :: 1 <= k < |c| - 1 ==> IsDigit(c[k])
  }

  /** The length of the citation marker the regex matches at the start of `s`, if any. */
  function CitationAt(s: string): (n: Option<nat>)
    ensures n.Some? ==> n.value <= |s| && IsCitation(s[..n.value])
  {
    if |s| == 0 || s[0] != '[' then None
    else
      var d := DigitRun(s[1..]);
      if d > 0 && 1 + d < |s| && s[1 + d] == ']' then
        assert forall k :: 1 <= k < d + 1 ==> s[k] == s[1..][k - 1];
        Some(d + 2)
      else
        None
  }

  /** Whenever a marker stands at the front of `s`, the regex matches exactly that marker. */
  lemma {:induction false} CitationAtComplete(s: string, m: nat)
    requires m <= |s| && IsCitation(s[..m])
    ensures CitationAt(s) == Some(m)
  {
    assert forall k :: 0 <= k < m - 2 ==> s[1..][k] == s[..m][k + 1];
    assert s[1..][m - 2] == s[..m][m - 1];
  }

  /** One left-to-right pass deleting every citation marker the pass meets. */
  function RemoveCitations(s: string): (r: string)
    ensures |r| <= |s|
    decreases |s|
  {
    if |s| == 0 then ""
    else
      match CitationAt(s)
      case Some(n) => RemoveCitations(s[n..])
      case None => [s[0]] + RemoveCitations(s[1..])
  }

  /** The characters citation removal can never delete: everything except brackets and digits. */
  predicate IsPlain(c: char) {
    c != '[' && c != ']' && !IsDigit(c)
  }

  function PlainChars(s: string): (r: string)
    ensures forall k :: 0 <= k < |r| ==> IsPlain(r[k])
  {
    if |s| == 0 then "" else (if IsPlain(s[0]) then [s[0]] else "") + PlainChars(s[1..])
  }

  lemma {:induction false} PlainCharsAppend(a: string, b: string)
    ensures PlainChars(a + b) == PlainChars(a) + PlainChars(b)
  {
    if |a| > 0 {
      assert (a + b)[1..] == a[1..] + b;
      PlainCharsAppend(a[1..], b);
    } else {
      assert a + b == b;
    }
  }

  lemma {:induction false} PlainCharsOfCitation(c: string)
    requires IsCitation(c)
    ensures PlainChars(c) == ""
  {
    if |c| > 0 {
      assert PlainChars(c) == PlainChars(c[1..]);
      PlainCharsNone(c[1..]);
    }
  }

  lemma {:induction false} PlainCharsNone(s: string)
    requires forall k :: 0 <= k < |s| ==> !IsPlain(s[k])
    ensures PlainChars(s) == ""
  {
    if |s| > 0 {
      PlainCharsNone(s[1..]);
    }
  }

  /** Citation removal deletes only brackets and digits: every other character survives, in order. */
  lemma {:induction false} RemoveCitationsKeepsPlainText(s: string)
    ensures PlainChars(RemoveCitations(s)) == PlainChars(s)
    decreases |s|
  {
    if |s| > 0 {
      match CitationAt(s)
      case Some(n) =>
        RemoveCitationsKeepsPlainText(s[n..]);
        assert s == s[..n] + s[n..];
        PlainCharsAppend(s[..n], s[n..]);
        PlainCharsOfCitation(s[..n]);
      case None =>
        RemoveCitationsKeepsPlainText(s[1..]);
        PlainCharsAppend([s[0]], RemoveCitations(s[1..]));
    }
  }

  /** A marker at the front is deleted outright and the pass resumes right after it. */
  lemma {:induction false} CitationDeleted(c: string, rest: string)
    requires IsCitation(c)
    ensures RemoveCitations(c + rest) == RemoveCitations(rest)
  {
    var s := c + rest;
    assert s[..|c|] == c;
    CitationAtComplete(s, |c|);
    assert s[|c|..] == rest;
  }

  /** Text without any `[` passes through citation removal unchanged. */
  lemma {:induction false} RemoveCitationsNoBracket(s: string)
    requires '[' !in s
    ensures RemoveCitations(s) == s
    decreases |s|
  {
    if |s| > 0 {
      assert s[0] in s;
      assert forall c :: c in s[1..] ==> c in s;
      RemoveCitationsNoBracket(s[1..]);
    }
  }

  /** A one-element numeric JSON array is indistinguishable from a citation and is deleted too. */
  lemma {:induction false} NumericArrayDeleted()
    ensures RemoveCitations("{\"ids\":[7]}") == "{\"ids\":}"
  {
    var p, c, t := "{\"ids\":", "[7]", "}";
    assert "{\"ids\":[7]}" == p + (c + t);
    assert IsCitation(c);
    assert forall k :: 0 <= k < |p| ==> p[k] != '[';
    CitationBetween(p, c, t);
    assert p + t == "{\"ids\":}";
  }

  /** A citation between two bracket-free texts is the only thing removed. */
  lemma {:induction false} CitationBetween(p: string, c: string, t: string)
    requires forall k :: 0 <= k < |p| ==> p[k] != '['
    requires IsCitation(c) && '[' !in t
    ensures RemoveCitations(p + (c + t)) == p + t
  {
    CitationDeleted(c, t);
    RemoveCitationsNoBracket(t);
    RemoveCitationsPrefix(p, c + t);
  }

  /** A bracket-free, plain prefix is copied and the pass continues where it ends. */
  lemma {:induction false} RemoveCitationsPrefix(p: string, rest: string)
    requires forall k :: 0 <= k < |p| ==> p[k] != '['
    ensures RemoveCitations(p + rest) == p + RemoveCitations(rest)
    decreases |p|
  {
    if |p| > 0 {
      assert (p + rest)[1..] == p[1..] + rest;
      RemoveCitationsPrefix(p[1..], rest);
    } else {
      assert p + rest == rest;
    }
  }

  // ---------------------------------------------------------------------------
  // Inline links: the global replacement of /\[([^\]]+)\]\([^)]+\)/ by its name
  // ---------------------------------------------------------------------------

  /** The first index at or after `from` holding `c`. */
  function IndexOfChar(s: string, c: char, from: nat): (r: Option<nat>)
    ensures r.Some? ==> from <= r.value < |s| && s[r.value] == c
                        && forall k :: from <= k < r.value ==> s[k] != c
    ensures r.None? ==> forall k :: from <= k < |s| ==> s[k] != c
    decreases |s| - from
  {
    if from >= |s| then None
    else if s[from] == c then Some(from)
    else IndexOfChar(s, c, from + 1)
  }

  /** The last index holding `c`. */
  function LastIndexOfChar(s: string, c: char): (r: Option<nat>)
    ensures r.Some? ==> r.value < |s| && s[r.value] == c
                        && forall k :: r.value < k < |s| ==> s[k] != c
    ensures r.None? ==> forall k :: 0 <= k < |s| ==> s[k] != c
  {
    if |s| == 0 then None
    else if s[|s| - 1] == c then Some(|s| - 1)
    else LastIndexOfChar(s[..|s| - 1], c)
  }

  /** A link the regex accepts: a non-empty name without `]`, a non-empty target without `)`. */
  predicate IsLink(name: string, target: string) {
    |name| > 0 && ']' !in name && |target| > 0 && ')' !in target
  }

  function LinkText(name: string, target: string): string {
    "[" + name + "](" + target + ")"
  }

  /** The link the regex matches at the start of `s`: its name and its total length. */
  function LinkAt(s: string): (r: Option<(string, nat)>)
    ensures r.Some? ==> 0 < r.value.1 <= |s|
  {
    if |s| == 0 || s[0] != '[' then None
    else
      match IndexOfChar(s, ']', 1)
      case None => None
      case Some(j) =>
        if j == 1 || j + 1 >= |s| || s[j + 1] != '(' then None
        else
          match IndexOfChar(s, ')', j + 2)
          case None => None
          case Some(k) => if k == j + 2 then None else Some((s[1..j], k + 1))
  }

  /** One left-to-right pass replacing every link the pass meets by its name. */
  function RewriteLinks(s: string): (r: string)
    decreases |s|
  {
    if |s| == 0 then ""
    else
      match LinkAt(s)
      case Some((name, n)) => name + RewriteLinks(s[n..])
      case None => [s[0]] + RewriteLinks(s[1..])
  }

  /** A link at the front is replaced by its name and the pass resumes after the `)`. */
  lemma {:induction false} LinkReplaced(name: string, target: string, rest: string)
    requires IsLink(name, target)
    ensures RewriteLinks(LinkText(name, target) + rest) == name + RewriteLinks(rest)
  {
    var s := LinkText(name, target) + rest;
    var j := |name| + 1;
    var k := j + 2 + |target|;
    assert s[j] == ']' && s[j + 1] == '(' && s[k] == ')';
    forall i | 1 <= i < j ensures s[i] != ']' {
      assert s[i] == name[i - 1];
    }
    forall i | j + 2 <= i < k ensures s[i] != ')' {
      assert s[i] == target[i - j - 2];
    }
    assert IndexOfChar(s, ']', 1) == Some(j);
    assert IndexOfChar(s, ')', j + 2) == Some(k);
    assert s[1..j] == name;
    assert s[k + 1..] == rest;
  }

  /** Text without any `[` passes through link rewriting unchanged. */
  lemma {:induction false} RewriteLinksNoBracket(s: string)
    requires '[' !in s
    ensures RewriteLinks(s) == s
    decreases |s|
  {
    if |s| > 0 {
      assert s[0] in s;
      assert forall c :: c in s[1..] ==> c in s;
      RewriteLinksNoBracket(s[1..]);
    }
  }

  /** `removeWebSearchArtifacts`: citation markers first, then links. */
  function RemoveWebSearchArtifacts(text: string): (r: string)
    ensures '[' !in text ==> r == text
  {
    if '[' !in text then
      RemoveCitationsNoBracket(text);
      RewriteLinksNoBracket(text);
      RewriteLinks(RemoveCitations(text))
    else
      RewriteLinks(RemoveCitations(text))
  }

  // ---------------------------------------------------------------------------
  // Cutting the JSON out: /```(?:json)?\s*([\s\S]*?)\s*```/, then braces, then trim
  // ---------------------------------------------------------------------------

  const Fence: string := "```"

  /** The first index at or after `from` where `sub` occurs. */
  function IndexOf(s: string, sub: string, from: nat): (r: Option<nat>)
    ensures r.Some? ==> from <= r.value && OccursAt(s, sub, r.value)
                        && forall k :: from <= k < r.value ==> !OccursAt(s, sub, k)
    ensures r.None? ==> forall k :: from <= k ==> !OccursAt(s, sub, k)
    decreases |s| - from
  {
    if from + |sub| > |s| then None
    else if OccursAt(s, sub, from) then Some(from)
    else IndexOf(s, sub, from + 1)
  }

  /** Where the captured interior begins for a fence opened at `i`: after the fence,
      the optional `json` tag and the white space the greedy `\s*` takes. */
  function InteriorStart(s: string, i: nat): (q: nat)
    requires i + 3 <= |s|
    ensures i + 3 <= q <= |s|
    ensures q < |s| ==> !IsWhitespace(s[q])
  {
    var p := if IsPrefix("json", s[i + 3..]) then i + 7 else i + 3;
    var rest := TrimStart(s[p..]);
    |s| - |rest|
  }

  /** The group the lazy `([\s\S]*?)` captures for a fence opened at `i`, if the block closes:
      everything up to the white space before the first later fence. */
  function FenceBlockAt(s: string, i: nat): (g: Option<string>)
    ensures g.Some? ==> NoEdgeWhitespace(g.value) && !Contains(g.value, Fence)
  {
    if !OccursAt(s, Fence, i) then None
    else
      var q := InteriorStart(s, i);
      match IndexOf(s, Fence, q)
      case None => None
      case Some(k) =>
        var g := TrimEnd(s[q..k]);
        InteriorHasNoFence(s, q, k, g);
        Some(g)
  }

  /** The interior ends before the first closing fence, so it holds no fence itself. */
  lemma {:induction false} InteriorHasNoFence(s: string, q: nat, k: nat, g: string)
    requires q <= k <= |s| && (q < |s| ==> !IsWhitespace(s[q]))
    requires forall j :: q <= j < k ==> !OccursAt(s, Fence, j)
    requires g == TrimEnd(s[q..k])
    ensures NoEdgeWhitespace(g) && !Contains(g, Fence)
  {
    assert g == s[q..q + |g|];
    assert |g| > 0 ==> g[0] == s[q];
    ContainsAt(g, Fence);
    forall j | 0 <= j <= |g| - |Fence| ensures !OccursAt(g, Fence, j) {
      SliceOfSlice(s, q, q + |g|, j, j + |Fence|);
      assert !OccursAt(s, Fence, q + j);
    }
  }

  /** The leftmost match of the fence regex at or after `i`, as its captured group. */
  function FirstFenceBlock(s: string, i: nat): (g: Option<string>)
    ensures g.Some? ==> NoEdgeWhitespace(g.value) && !Contains(g.value, Fence)
    decreases |s| - i
  {
    if i + 3 > |s| then None
    else
      match FenceBlockAt(s, i)
      case Some(g) => Some(g)
      case None => FirstFenceBlock(s, i + 1)
  }

  /** A fence starts with a backtick. */
  lemma {:induction false} FenceStartsWithBacktick(s: string, j: int)
    requires OccursAt(s, Fence, j)
    ensures s[j] == '`'
  {
    assert s[j..j + 3][0] == s[j];
  }

  /** No match can start where there is no backtick: the search moves on. */
  lemma {:induction false} FirstFenceBlockSkips(s: string, i: nat, n: nat)
    requires i <= n && n + 3 <= |s|
    requires forall j :: i <= j < n ==> s[j] != '`'
    ensures FirstFenceBlock(s, i) == FirstFenceBlock(s, n)
    decreases n - i
  {
    if i < n {
      if OccursAt(s, Fence, i) {
        FenceStartsWithBacktick(s, i);
      }
      FirstFenceBlockSkips(s, i + 1, n);
    }
  }

  /**
   * A fenced block is found: in text whose first backtick opens a fence, followed by an
   * optional `json` tag, white space, a body without backticks or edge white space, white
   * space and a closing fence, the captured group is exactly the body. Without the tag the
   * text after the fence must not itself start with `json`, which the optional group would take.
   */
  lemma {:induction false} FencedBlockFound(s: string, pre: string, tag: string, w1: string, body: string,
                                            w2: string, post: string)
    requires s == pre + Fence + tag + w1 + body + w2 + Fence + post
    requires '`' !in pre && '`' !in body
    requires AllWhitespace(w1) && AllWhitespace(w2)
    requires body != "" && NoEdgeWhitespace(body)
    requires tag == "json" || (tag == "" && !IsPrefix("json", w1 + body))
    ensures FirstFenceBlock(s, 0) == Some(body)
  {
    FencedRegroup(s, pre, tag, w1, body, w2, post);
    var y := body + (w2 + (Fence + post));
    if tag == "" {
      TagFreeStart(w1, body, w2, post);
      TagNeedsLetters(w1 + body, w2);
    }
    FencedGroupedFound(s, pre, tag, w1, y, body, w2, post);
  }

  /** White space and a fence cannot supply any letter of `json`. */
  lemma {:induction false} TagNeedsLetters(a: string, w2: string)
    requires AllWhitespace(w2)
    ensures IsPrefix("json", a + w2 + Fence) ==> IsPrefix("json", a)
  {
    var x := a + w2 + Fence;
    if |a| >= 4 {
      assert x[..4] == a[..4];
    } else if |x| >= 4 {
      var c := x[|a|];
      if |w2| > 0 {
        assert c == w2[0];
      } else {
        assert c == Fence[0];
      }
      assert x[..4][|a|] == c != "json"[|a|];
    }
  }

  /** Without the tag, what follows the fence starts the same way on the long text. */
  lemma {:induction false} TagFreeStart(w1: string, body: string, w2: string, post: string)
    requires body != ""
    ensures IsPrefix("json", w1 + (body + (w2 + (Fence + post)))) ==> IsPrefix("json", w1 + body + w2 + Fence)
  {
    var a, b := w1 + body + w2 + Fence, w1 + (body + (w2 + (Fence + post)));
    assert |a| >= 4;
    forall j | 0 <= j < |a| ensures a[j] == b[j] {
      if j < |w1| {
      } else if j < |w1| + |body| {
        assert a[j] == body[j - |w1|] == b[j];
      } else if j < |w1| + |body| + |w2| {
        assert a[j] == w2[j - |w1| - |body|] == b[j];
      } else {
        assert a[j] == Fence[j - |w1| - |body| - |w2|] == b[j];
      }
    }
    assert a[..4] == b[..4];
  }

  /** `FencedBlockFound` on the text grouped from the right. */
  lemma {:induction false} FencedGroupedFound(s: string, pre: string, tag: string, w1: string, y: string,
                                              body: string, w2: string, post: string)
    requires y == body + (w2 + (Fence + post))
    requires s == pre + (Fence + (tag + (w1 + y)))
    requires '`' !in pre && '`' !in body
    requires AllWhitespace(w1) && AllWhitespace(w2)
    requires body != "" && NoEdgeWhitespace(body)
    requires tag == "json" || (tag == "" && !IsPrefix("json", w1 + y))
    ensures FirstFenceBlock(s, 0) == Some(body)
  {
    GroupedSlices(s, pre, tag, w1, y);
    FencedSlicesFound(s, |pre|, tag, w1, y, body, w2, post);
  }

  /** Where the parts of the grouped text sit in it. */
  lemma {:induction false} GroupedSlices(s: string, pre: string, tag: string, w1: string, y: string)
    requires s == pre + (Fence + (tag + (w1 + y)))
    ensures |pre| + 3 + |tag| + |w1| <= |s|
    ensures forall j :: 0 <= j < |pre| ==> s[j] == pre[j]
    ensures s[|pre|..|pre| + 3] == Fence && s[|pre| + 3..] == tag + (w1 + y)
    ensures s[|pre| + 3 + |tag| + |w1|..] == y
  {
    var n, t4 := |pre|, w1 + y;
    var t5 := tag + t4;
    ConcatHalves(pre, Fence + t5);
    ConcatHalves(Fence, t5);
    SliceOfSuffix(s, n, 3);
    ConcatHalves(tag, t4);
    ConcatHalves(w1, y);
    SliceOfSuffix(s, n + 3, |tag|);
    SliceOfSuffix(s, n + 3 + |tag|, |w1|);
  }

  /** `FencedBlockFound` stated on positions: no backtick before the opening fence at `n`. */
  lemma {:induction false} FencedSlicesFound(s: string, n: nat, tag: string, w1: string, y: string,
                                             body: string, w2: string, post: string)
    requires y == body + (w2 + (Fence + post))
    requires n + 3 + |tag| + |w1| <= |s|
    requires forall j :: 0 <= j < n ==> s[j] != '`'
    requires s[n..n + 3] == Fence && s[n + 3..] == tag + (w1 + y)
    requires s[n + 3 + |tag| + |w1|..] == y
    requires '`' !in body
    requires AllWhitespace(w1) && AllWhitespace(w2)
    requires body != "" && NoEdgeWhitespace(body)
    requires tag == "json" || (tag == "" && !IsPrefix("json", w1 + y))
    ensures FirstFenceBlock(s, 0) == Some(body)
  {
    FirstFenceBlockSkips(s, 0, n);
    FenceOpenedFound(s, n, tag, w1, y, body, w2, post);
  }

  /** The block opened by the fence at `n` captures the body. */
  lemma {:induction false} FenceOpenedFound(s: string, n: nat, tag: string, w1: string, y: string,
                                            body: string, w2: string, post: string)
    requires y == body + (w2 + (Fence + post))
    requires n + 3 + |tag| + |w1| <= |s|
    requires s[n..n + 3] == Fence && s[n + 3..] == tag + (w1 + y)
    requires s[n + 3 + |tag| + |w1|..] == y
    requires '`' !in body
    requires AllWhitespace(w1) && AllWhitespace(w2)
    requires body != "" && NoEdgeWhitespace(body)
    requires tag == "json" || (tag == "" && !IsPrefix("json", w1 + y))
    ensures FirstFenceBlock(s, n) == Some(body)
  {
    assert y[0] == body[0];
    FenceInterior(s, n, tag, w1, y);
    var q := n + 3 + |tag| + |w1|;
    var k := q + |body| + |w2|;
    ClosingFence(s, q, k, body, w2, post);
    TrimEndBeforeWhitespace(body, w2);
    FenceBlockAtFound(s, n, q, k, body + w2);
  }

  /** The block opened at `n` captures the trimmed text between its interior start and the
      first closing fence. */
  lemma {:induction false} FenceBlockAtFound(s: string, n: nat, q: nat, k: nat, inner: string)
    requires OccursAt(s, Fence, n) && n + 3 <= |s|
    requires InteriorStart(s, n) == q && IndexOf(s, Fence, q) == Some(k)
    requires q <= k <= |s| && s[q..k] == inner
    ensures FirstFenceBlock(s, n) == Some(TrimEnd(inner))
  {
    assert FenceBlockAt(s, n) == Some(TrimEnd(inner));
  }

  /** The fenced text, grouped from the right. */
  lemma {:induction false} FencedRegroup(s: string, pre: string, tag: string, w1: string, body: string,
                                         w2: string, post: string)
    requires s == pre + Fence + tag + w1 + body + w2 + Fence + post
    ensures s == pre + (Fence + (tag + (w1 + (body + (w2 + (Fence + post))))))
  {
    SeqAssoc(pre + Fence + tag + w1 + body, w2, Fence + post);
    SeqAssoc(pre + Fence + tag + w1, body, w2 + (Fence + post));
    SeqAssoc(pre + Fence + tag, w1, body + (w2 + (Fence + post)));
    SeqAssoc(pre + Fence, tag, w1 + (body + (w2 + (Fence + post))));
    SeqAssoc(pre, Fence, tag + (w1 + (body + (w2 + (Fence + post)))));
  }

  /** The interior starts after the optional tag and the white space that follows it. */
  lemma {:induction false} FenceInterior(s: string, n: nat, tag: string, w1: string, y: string)
    requires n + 3 <= |s| && s[n + 3..] == tag + (w1 + y)
    requires AllWhitespace(w1) && |y| > 0 && !IsWhitespace(y[0])
    requires tag == "json" || (tag == "" && !IsPrefix("json", w1 + y))
    ensures InteriorStart(s, n) == n + 3 + |tag| + |w1|
  {
    var a := s[n + 3..];
    if tag == "json" {
      assert a[..4] == "json";
      assert s[n + 7..] == a[4..] == w1 + y;
    } else {
      assert a == w1 + y;
    }
    TrimStartAfterWhitespace(w1, y);
    TrimStartFixed(y);
  }

  /** The first fence after a backtick-free body and white space closes the block. */
  lemma {:induction false} ClosingFence(s: string, q: nat, k: nat, body: string, w2: string, post: string)
    requires q <= |s| && s[q..] == body + (w2 + (Fence + post))
    requires k == q + |body| + |w2|
    requires '`' !in body && AllWhitespace(w2)
    ensures k + 3 <= |s| && IndexOf(s, Fence, q) == Some(k)
    ensures s[q..k] == body + w2
  {
    var y := s[q..];
    assert y[|body| + |w2|..] == Fence + post;
    assert s[k..k + 3] == Fence;
    forall j | q <= j < k ensures !OccursAt(s, Fence, j) {
      assert s[j] == y[j - q];
      if j < q + |body| {
        assert s[j] == body[j - q];
      } else {
        assert s[j] == w2[j - q - |body|];
      }
      if OccursAt(s, Fence, j) {
        FenceStartsWithBacktick(s, j);
      }
    }
    assert y[..|body| + |w2|] == body + w2;
    var r := IndexOf(s, Fence, q);
    if r.None? || r.value != k {
      assert OccursAt(s, Fence, k);
      assert false;
    }
  }

  /** A captured group needs two fences, the second after the first. */
  lemma {:induction false} FenceBlockNeedsTwoFences(s: string, i: nat)
    requires FirstFenceBlock(s, i).Some?
    ensures exists a, b :: i <= a && a + 3 <= b && OccursAt(s, Fence, a) && OccursAt(s, Fence, b)
    decreases |s| - i
  {
    if FenceBlockAt(s, i).Some? {
      var q := InteriorStart(s, i);
      var k := IndexOf(s, Fence, q).value;
      assert OccursAt(s, Fence, i) && OccursAt(s, Fence, k);
    } else {
      FenceBlockNeedsTwoFences(s, i + 1);
    }
  }

  /** The span from the first `{` to the last `}`, when the first comes before the last. */
  function BraceSpan(cleaned: string): (r: Option<string>)
    ensures r.Some? ==> |r.value| >= 2 && r.value[0] == '{' && r.value[|r.value| - 1] == '}'
  {
    var start := IndexOfChar(cleaned, '{', 0);
    var end := LastIndexOfChar(cleaned, '}');
    if start.Some? && end.Some? && end.value > start.value then
      Some(cleaned[start.value..end.value + 1])
    else
      None
  }

  /** `stripMarkdownJson`: the trimmed interior of the first fenced block if that is non-empty,
      else the span from the first `{` to the last `}`, else the whole cleaned text, trimmed. */
  function StripMarkdownJson(text: string): (r: string)
    ensures NoEdgeWhitespace(r)
  {
    CutJson(RemoveWebSearchArtifacts(text))
  }

  /** The cut itself, on the text once the search artifacts are gone. */
  function CutJson(cleaned: string): (r: string)
    ensures NoEdgeWhitespace(r)
  {
    var block := FirstFenceBlock(cleaned, 0);
    if block.Some? && block.value != "" then Trim(block.value) else CutBraces(cleaned)
  }

  /** The cut when there is no fenced block to take. */
  function CutBraces(cleaned: string): (r: string)
    ensures NoEdgeWhitespace(r)
  {
    match BraceSpan(cleaned)
    case Some(span) => Trim(span)
    case None => Trim(cleaned)
  }

  /** A first fenced block with a non-empty interior wins: the result is that interior,
      which holds no fence of its own. */
  lemma {:induction false} StripFenced(text: string)
    requires var block := FirstFenceBlock(RemoveWebSearchArtifacts(text), 0);
             block.Some? && block.value != ""
    ensures var r := StripMarkdownJson(text);
            r == FirstFenceBlock(RemoveWebSearchArtifacts(text), 0).value && r != "" && !Contains(r, Fence)
  {
    TrimFixed(FirstFenceBlock(RemoveWebSearchArtifacts(text), 0).value);
  }

  /** Without such a block, the result is exactly the inclusive span from the first `{`
      to the last `}` whenever the first comes before the last. */
  lemma {:induction false} StripBraced(text: string, cleaned: string, start: nat, end: nat)
    requires cleaned == RemoveWebSearchArtifacts(text)
    requires FirstFenceBlock(cleaned, 0).None? || FirstFenceBlock(cleaned, 0).value == ""
    requires IndexOfChar(cleaned, '{', 0) == Some(start) && LastIndexOfChar(cleaned, '}') == Some(end)
    requires start < end
    ensures var r := StripMarkdownJson(text);
            r == cleaned[start..end + 1] && r[0] == '{' && r[|r| - 1] == '}'
  {
    assert StripMarkdownJson(text) == CutJson(cleaned);
    assert CutJson(cleaned) == CutBraces(cleaned);
    CutBraced(cleaned, start, end);
  }

  lemma {:induction false} CutBraced(cleaned: string, start: nat, end: nat)
    requires IndexOfChar(cleaned, '{', 0) == Some(start) && LastIndexOfChar(cleaned, '}') == Some(end)
    requires start < end
    ensures var r := CutBraces(cleaned);
            r == cleaned[start..end + 1] && r[0] == '{' && r[|r| - 1] == '}'
  {
    var span := cleaned[start..end + 1];
    assert BraceSpan(cleaned) == Some(span);
    assert span[0] == '{' && span[|span| - 1] == '}';
    TrimFixed(span);
  }

  /** Otherwise the whole cleaned text is returned, trimmed. */
  lemma {:induction false} StripPlain(text: string)
    requires var cleaned := RemoveWebSearchArtifacts(text);
             var block := FirstFenceBlock(cleaned, 0);
             (block.None? || block.value == "") && BraceSpan(cleaned).None?
    ensures StripMarkdownJson(text) == Trim(RemoveWebSearchArtifacts(text))
  {
  }

  /** Text that is already a bare JSON object survives cutting unchanged. */
  lemma {:induction false} StripBareObject(text: string)
    requires '[' !in text && '`' !in text && |text| >= 2 && text[0] == '{' && text[|text| - 1] == '}'
    ensures StripMarkdownJson(text) == text
  {
    assert RemoveWebSearchArtifacts(text) == text;
    NoFenceWithoutBacktick(text, 0);
    assert IndexOfChar(text, '{', 0) == Some(0);
    assert LastIndexOfChar(text, '}') == Some(|text| - 1);
    assert text[0..|text|] == text;
    StripBraced(text, text, 0, |text| - 1);
  }

  lemma {:induction false} NoFenceWithoutBacktick(s: string, i: nat)
    requires '`' !in s
    ensures FirstFenceBlock(s, i) == None
    decreases |s| - i
  {
    if i + 3 <= |s| {
      assert s[i] in s && s[i..i + 3][0] == s[i] && Fence[0] == '`';
      assert !OccursAt(s, Fence, i);
      NoFenceWithoutBacktick(s, i + 1);
    }
  }

  // ---------------------------------------------------------------------------
  // Parsing with one repair round-trip
  // ---------------------------------------------------------------------------

  /** What the JSON parser oracle answers: a value, or the message of the error it throws. */
  datatype ParseOutcome<J> = Parsed(value: J) | ParseFailed(message: string)

  /** What the repair call yields: the reply text, or the message of the error it throws. */
  datatype RepairReply = Replied(text: string) | RepairThrew(message: string)

  /** What the repair call is told: the parser's message, the excerpt around the reported
      position, and the malformed text itself. */
  datatype RepairRequest = RepairRequest(message: string, excerpt: string, malformed: string)

  /** The outcome of `parseWithFallback` together with what it did: the texts it handed to the
      parser and the repair calls it made, in order. */
  datatype Recovery<J> = Recovery(result: Result<J, string>, parsedTexts: seq<string>, repairCalls: seq<RepairRequest>)

  /** The position the regex /position (\d+)/ finds in a parser message: the first
      "position " followed by at least one digit. */
  function ReportedPosition(message: string): (p: Option<nat>)
    decreases |message|
  {
    if |message| == 0 then None
    else if ReportsAt(message) then Some(DigitsValue(message[9..9 + DigitRun(message[9..])]))
    else ReportedPosition(message[1..])
  }

  /** `m` starts with "position " and a digit. */
  predicate ReportsAt(m: string) {
    IsPrefix("position ", m) && DigitRun(m[9..]) > 0
  }

  /** No report can start before `i`: the search moves on to `i`. */
  lemma {:induction false} ReportedPositionSkips(message: string, i: nat)
    requires i <= |message|
    requires forall j :: 0 <= j < i ==> !ReportsAt(message[j..])
    ensures ReportedPosition(message) == ReportedPosition(message[i..])
  {
    if i > 0 {
      assert !ReportsAt(message[0..]) && message[0..] == message;
      var rest := message[1..];
      forall j | 0 <= j < i - 1 ensures !ReportsAt(rest[j..]) {
        assert rest[j..] == message[j + 1..];
      }
      ReportedPositionSkips(rest, i - 1);
      assert rest[i - 1..] == message[i..];
    }
  }

  /** The first "position " followed by the digits of `n` and then no further digit reports `n`. */
  lemma {:induction false} ReportedPositionFound(message: string, pre: string, n: nat, post: string)
    requires message == pre + "position " + NatToString(n) + post
    requires forall j :: 0 <= j < |pre| ==> !ReportsAt(message[j..])
    requires post == "" || !IsDigit(post[0])
    ensures ReportedPosition(message) == Some(n)
  {
    var ds := NatToString(n);
    var m := "position " + ds + post;
    SeqAssoc(pre, "position ", ds);
    SeqAssoc(pre, "position " + ds, post);
    ConcatHalves(pre, m);
    ReportedPositionSkips(message, |pre|);
    ReportsDigits(m, ds, post);
  }

  /** A message that starts with "position " and a run of digits reports their value. */
  lemma {:induction false} ReportsDigits(m: string, ds: string, post: string)
    requires m == "position " + ds + post
    requires ds != [] && IsDigits(ds)
    requires post == "" || !IsDigit(post[0])
    ensures ReportedPosition(m) == Some(DigitsValue(ds))
  {
    assert m[..9] == "position ";
    var t := m[9..];
    assert t == ds + post;
    assert |ds| < |t| ==> t[|ds|] == post[0];
    DigitRunUnique(t, |ds|);
    assert t[..|ds|] == ds;
  }


  /** `s.substring(Math.max(0, p - 100), Math.min(s.length, p + 100))`. */
  function Excerpt(s: string, p: nat): (e: string)
    ensures |e| <= 200
    ensures var lo := if p < 100 then 0 else if p - 100 > |s| then |s| else p - 100;
            var hi := if p + 100 < |s| then p + 100 else |s|;
            lo <= hi && e == s[lo..hi]
    ensures p < |s| ==> exists k :: 0 <= k < |e| && e[k] == s[p]
  {
    var lo := if p < 100 then 0 else if p - 100 > |s| then |s| else p - 100;
    var hi := if p + 100 < |s| then p + 100 else |s|;
    assert p < |s| ==> s[lo..hi][p - lo] == s[p];
    s[lo..hi]
  }

  /** The excerpt sent along with a repair request: empty when the message reports no position. */
  function ErrorContext(message: string, text: string): (e: string)
    ensures ReportedPosition(message).None? ==> e == ""
    ensures ReportedPosition(message).Some? ==> e == Excerpt(text, ReportedPosition(message).value)
  {
    match ReportedPosition(message)
    case None => ""
    case Some(p) => Excerpt(text, p)
  }

  const EmptyRepairMessage: string := "Empty response from JSON repair attempt"

  /** The single repair attempt: the reply, cut by `StripMarkdownJson`, parsed once; the
      result and the texts handed to the parser. */
  function RepairAttempt<J>(reply: RepairReply, parse: string -> ParseOutcome<J>): (r: (Result<J, string>, seq<string>))
    ensures |r.1| <= 1
    ensures |r.1| == 1 <==> reply.Replied? && reply.text != ""
    ensures |r.1| == 1 ==> r.1[0] == StripMarkdownJson(reply.text)
    ensures r.0.Success? <==> |r.1| == 1 && parse(r.1[0]).Parsed?
    ensures r.0.Success? ==> r.0.value == parse(r.1[0]).value
  {
    match reply
    case RepairThrew(e) => (Failure(e), [])
    case Replied(text) =>
      if text == "" then (Failure(EmptyRepairMessage), [])
      else
        var cleaned := StripMarkdownJson(text);
        match parse(cleaned)
        case Parsed(v) => (Success(v), [cleaned])
        case ParseFailed(e) => (Failure(e), [cleaned])
  }

  function NoClientMessage(m: string): string {
    "JSON parse failed and OpenAI not available: " + m
  }

  function RepairFailedMessage(m: string, e: string): string {
    "JSON parse failed: " + m + ". Repair error: " + e
  }

  /** `parseWithFallback`: parse; on failure, with a client configured, one repair call whose
      reply is cut and parsed once more; a second failure is final. */
  function ParseWithFallback<J>(jsonString: string, parse: string -> ParseOutcome<J>,
                                clientConfigured: bool, repair: RepairRequest -> RepairReply): (r: Recovery<J>)
    ensures 1 <= |r.parsedTexts| <= 2 && r.parsedTexts[0] == jsonString
    ensures |r.repairCalls| <= 1
    ensures |r.parsedTexts| == 2 ==> |r.repairCalls| == 1
  {
    match parse(jsonString)
    case Parsed(v) => Recovery(Success(v), [jsonString], [])
    case ParseFailed(m) =>
      if !clientConfigured then
        Recovery(Failure(NoClientMessage(m)), [jsonString], [])
      else
        var request := RepairRequest(m, ErrorContext(m, jsonString), jsonString);
        var (outcome, reparsed) := RepairAttempt(repair(request), parse);
        match outcome
        case Success(v) => Recovery(Success(v), [jsonString] + reparsed, [request])
        case Failure(e) => Recovery(Failure(RepairFailedMessage(m, e)), [jsonString] + reparsed, [request])
  }

  /** Text that parses is returned as parsed, without any repair call. */
  lemma {:induction false} ParsedWithoutRepair<J>(jsonString: string, parse: string -> ParseOutcome<J>,
                               clientConfigured: bool, repair: RepairRequest -> RepairReply)
    requires parse(jsonString).Parsed?
    ensures var r := ParseWithFallback(jsonString, parse, clientConfigured, repair);
            r.result == Success(parse(jsonString).value) && r.parsedTexts == [jsonString] && r.repairCalls == []
  {
  }

  /** Without a client a parse failure is final, and the error repeats the parser's message. */
  lemma {:induction false} NoClientNoRepair<J>(jsonString: string, parse: string -> ParseOutcome<J>,
                            repair: RepairRequest -> RepairReply)
    requires parse(jsonString).ParseFailed?
    ensures var r := ParseWithFallback(jsonString, parse, false, repair);
            r.result.Failure? && r.repairCalls == [] && r.parsedTexts == [jsonString]
            && Contains(r.result.error, parse(jsonString).message)
  {
    var m := parse(jsonString).message;
    var msg := NoClientMessage(m);
    assert OccursAt(msg, m, |msg| - |m|);
    ContainsAt(msg, m);
  }

  /** With a client, a parse failure makes exactly one repair call, carrying the parser's
      message, the excerpt around the reported position and the malformed text; the value
      returned is the parse of the cut reply, and nothing is parsed a third time. */
  lemma {:induction false} OneRepairRoundTrip<J>(jsonString: string, parse: string -> ParseOutcome<J>,
                              repair: RepairRequest -> RepairReply)
    requires parse(jsonString).ParseFailed?
    ensures var m := parse(jsonString).message;
            var r := ParseWithFallback(jsonString, parse, true, repair);
            var reply := repair(RepairRequest(m, ErrorContext(m, jsonString), jsonString));
            && r.repairCalls == [RepairRequest(m, ErrorContext(m, jsonString), jsonString)]
            && (|r.parsedTexts| == 2 <==> reply.Replied? && reply.text != "")
            && (|r.parsedTexts| == 2 ==> r.parsedTexts[1] == StripMarkdownJson(reply.text))
            && (r.result.Success? <==> |r.parsedTexts| == 2 && parse(r.parsedTexts[1]).Parsed?)
            && (r.result.Success? ==> r.result.value == parse(r.parsedTexts[1]).value)
  {
  }

  /** When the repair attempt fails too, the error names both the original and the repair failure. */
  lemma {:induction false} RepairFailureNamesBoth<J>(jsonString: string, parse: string -> ParseOutcome<J>,
                                  repair: RepairRequest -> RepairReply)
    requires parse(jsonString).ParseFailed?
    requires var m := parse(jsonString).message;
             RepairAttempt(repair(RepairRequest(m, ErrorContext(m, jsonString), jsonString)), parse).0.Failure?
    ensures var m := parse(jsonString).message;
            var e := RepairAttempt(repair(RepairRequest(m, ErrorContext(m, jsonString), jsonString)), parse).0.error;
            var r := ParseWithFallback(jsonString, parse, true, repair);
            r.result.Failure? && Contains(r.result.error, m) && Contains(r.result.error, e)
  {
    var m := parse(jsonString).message;
    var e := RepairAttempt(repair(RepairRequest(m, ErrorContext(m, jsonString), jsonString)), parse).0.error;
    var head := "JSON parse failed: " + m;
    var msg := RepairFailedMessage(m, e);
    assert msg == head + ". Repair error: " + e;
    assert msg[|head| - |m|..|head|] == m;
    assert OccursAt(msg, m, |head| - |m|);
    assert OccursAt(msg, e, |msg| - |e|);
    ContainsAt(msg, m);
    ContainsAt(msg, e);
  }

  /** Whatever value the recovery returns is what the parser produced for the last text it was given. */
  lemma {:induction false} RecoveredValueWasParsed<J>(jsonString: string, parse: string -> ParseOutcome<J>,
                                   clientConfigured: bool, repair: RepairRequest -> RepairReply)
    ensures var r := ParseWithFallback(jsonString, parse, clientConfigured, repair);
            r.result.Success? ==> parse(r.parsedTexts[|r.parsedTexts| - 1]) == Parsed(r.result.value)
  {
  }
}
