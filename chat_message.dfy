/** How a chat message is displayed (components/ChatMessage.tsx): the content is cut by
    `split(/(```[\s\S]*?```)/g)` into plain text and fenced blocks, and each fenced block is
    rewritten by two `replace` calls and a `trim`. The regular expressions are modelled as
    explicit searches for the three-backtick fence. */
module ChatMessage {
  import opened Types
  import opened Text

  /** Three backticks begin at index i of s. */
  predicate IsFenceAt(s: string, i: int) {
    0 <= i && i + 3 <= |s| && s[i] == '`' && s[i + 1] == '`' && s[i + 2] == '`'
  }

  /** No fence begins at any index in [lo, hi). */
  predicate NoFenceIn(s: string, lo: int, hi: int) {
    forall j :: lo <= j < hi ==> !IsFenceAt(s, j)
  }

  /** The first index at or after `from` where a fence begins. */
  function FindFence(s: string, from: nat): (r: Option<nat>)
    ensures r.Some? ==> from <= r.value && IsFenceAt(s, r.value) && NoFenceIn(s, from, r.value)
    ensures r.None? ==> NoFenceIn(s, from, |s|)
    decreases |s| - from
  {
    if |s| < from + 3 then None
    else if IsFenceAt(s, from) then Some(from)
    else FindFence(s, from + 1)
  }

  lemma FindFenceIs(s: string, from: nat, i: nat)
    requires from <= i && IsFenceAt(s, i) && NoFenceIn(s, from, i)
    ensures FindFence(s, from) == Some(i)
  {
  }

  // ---------------------------------------------------------------------------
  // Splitting

  /** `content.split(/(```[\s\S]*?```)/g)`. The leftmost match starts at the first fence,
      provided a second fence begins at least three characters later; the lazy `*?` makes the
      match end at the first such fence. The captured match is kept between the plain pieces. */
  function Split(s: string): (parts: seq<string>)
    decreases |s|
  {
    match FindFence(s, 0)
    case None => [s]
    case Some(q) =>
      match FindFence(s, q + 3)
      case None => [s]
      case Some(k) => [s[..q], s[q..k + 3]] + Split(s[k + 3..])
  }

  /** What the pattern matches: an opening fence and the shortest run up to the next fence. */
  ghost predicate IsCodeSpan(p: string) {
    |p| >= 6 && IsFenceAt(p, 0) && IsFenceAt(p, |p| - 3) && NoFenceIn(p, 3, |p| - 3)
  }

  /** No match of the pattern begins anywhere in p: no fence is followed by a later fence. */
  ghost predicate NoMatchIn(p: string) {
    forall i, j :: IsFenceAt(p, i) && i + 3 <= j ==> !IsFenceAt(p, j)
  }

  /** The result of splitting s: plain and fenced pieces alternate, starting and ending with
      plain text; the pieces reassemble s; each fenced piece is a match; each match is the
      leftmost one (no fence starts inside the plain text before it); the last plain piece
      holds no match. */
  ghost predicate IsFenceSplit(s: string, parts: seq<string>) {
    && |parts| % 2 == 1
    && Concat(parts) == s
    && CodeSpansOdd(parts)
    && MatchesLeftmost(parts)
    && NoMatchIn(parts[|parts| - 1])
  }

  /** Every piece at an odd position is a code span. */
  ghost predicate CodeSpansOdd(parts: seq<string>) {
    forall k :: 0 <= k < |parts| && k % 2 == 1 ==> IsCodeSpan(parts[k])
  }

  /** No fence starts inside a plain piece that is followed by a code span. */
  ghost predicate MatchesLeftmost(parts: seq<string>) {
    forall k :: 0 <= k < |parts| - 1 && k % 2 == 0 ==> NoFenceIn(parts[k] + parts[k + 1], 0, |parts[k]|)
  }

  lemma ConcatPair(a: string, b: string, rest: seq<string>)
    ensures Concat([a, b] + rest) == a + b + Concat(rest)
  {
    ConcatAppend([a, b], rest);
    assert [a, b][..1] == [a];
  }

  /** The first match of s, when there is one, is a code span after a fence-free prefix. */
  lemma FirstMatch(s: string, q: nat, k: nat)
    requires FindFence(s, 0) == Some(q) && FindFence(s, q + 3) == Some(k)
    ensures IsCodeSpan(s[q..k + 3])
    ensures NoFenceIn(s[..q] + s[q..k + 3], 0, q)
    ensures s[..q] + s[q..k + 3] + s[k + 3..] == s
  {
    var code := s[q..k + 3];
    forall j | 3 <= j < |code| - 3 ensures !IsFenceAt(code, j) {
      assert !IsFenceAt(s, q + j);
    }
    assert IsFenceAt(s, k);
    var head := s[..q] + code;
    assert head == s[..k + 3];
    forall j | 0 <= j < q ensures !IsFenceAt(head, j) {
      assert !IsFenceAt(s, j);
    }
  }

  /** A leftmost match in front of a split gives a split of the longer text. */
  lemma ConsFenceSplit(pre: string, code: string, rest: string, tail: seq<string>)
    requires IsCodeSpan(code) && NoFenceIn(pre + code, 0, |pre|)
    requires IsFenceSplit(rest, tail)
    ensures IsFenceSplit(pre + code + rest, [pre, code] + tail)
  {
    var parts := [pre, code] + tail;
    ConcatPair(pre, code, tail);
    ConsCodeSpans(pre, code, tail);
    ConsLeftmost(pre, code, tail);
    assert parts[|parts| - 1] == tail[|tail| - 1];
  }

  lemma ConsCodeSpans(pre: string, code: string, tail: seq<string>)
    requires IsCodeSpan(code) && CodeSpansOdd(tail)
    ensures CodeSpansOdd([pre, code] + tail)
  {
    var parts := [pre, code] + tail;
    forall i | 0 <= i < |parts| && i % 2 == 1 ensures IsCodeSpan(parts[i]) {
      if i > 1 { assert parts[i] == tail[i - 2]; }
    }
  }

  lemma ConsLeftmost(pre: string, code: string, tail: seq<string>)
    requires NoFenceIn(pre + code, 0, |pre|) && MatchesLeftmost(tail)
    ensures MatchesLeftmost([pre, code] + tail)
  {
    var parts := [pre, code] + tail;
    forall i | 0 <= i < |parts| - 1 && i % 2 == 0
      ensures NoFenceIn(parts[i] + parts[i + 1], 0, |parts[i]|)
    {
      if i > 0 { assert parts[i] == tail[i - 2] && parts[i + 1] == tail[i - 1]; }
    }
  }

  /** Dropping the first plain and fenced piece of a split leaves a split of the rest. */
  lemma TailFenceSplit(s: string, parts: seq<string>)
    requires IsFenceSplit(s, parts) && |parts| > 1
    ensures IsFenceSplit(Concat(parts[2..]), parts[2..])
    ensures s == parts[0] + parts[1] + Concat(parts[2..])
  {
    var tail := parts[2..];
    assert parts == [parts[0], parts[1]] + tail;
    ConcatPair(parts[0], parts[1], tail);
    TailCodeSpans(parts);
    TailLeftmost(parts);
    assert tail[|tail| - 1] == parts[|parts| - 1];
  }

  lemma TailCodeSpans(parts: seq<string>)
    requires CodeSpansOdd(parts) && |parts| >= 2
    ensures CodeSpansOdd(parts[2..])
  {
    var tail := parts[2..];
    forall i | 0 <= i < |tail| && i % 2 == 1 ensures IsCodeSpan(tail[i]) {
      assert tail[i] == parts[i + 2];
    }
  }

  lemma TailLeftmost(parts: seq<string>)
    requires MatchesLeftmost(parts) && |parts| >= 2
    ensures MatchesLeftmost(parts[2..])
  {
    var tail := parts[2..];
    forall i | 0 <= i < |tail| - 1 && i % 2 == 0
      ensures NoFenceIn(tail[i] + tail[i + 1], 0, |tail[i]|)
    {
      assert tail[i] == parts[i + 2] && tail[i + 1] == parts[i + 3];
    }
  }

  /** Split meets the description above: in particular its pieces reassemble the content. */
  lemma {:induction false} SplitIsFenceSplit(s: string)
    ensures IsFenceSplit(s, Split(s))
    decreases |s|
  {
    match FindFence(s, 0)
    case None =>
    case Some(q) =>
      match FindFence(s, q + 3)
      case None =>
      case Some(k) =>
        SplitIsFenceSplit(s[k + 3..]);
        FirstMatch(s, q, k);
        ConsFenceSplit(s[..q], s[q..k + 3], s[k + 3..], Split(s[k + 3..]));
  }

  /** Text in which no match begins is a single plain piece. */
  lemma SplitNoMatch(s: string)
    requires NoMatchIn(s)
    ensures Split(s) == [s]
  {
    match FindFence(s, 0)
    case None =>
    case Some(q) =>
      match FindFence(s, q + 3)
      case None =>
      case Some(k) =>
        assert false;
  }

  /** A fence-free prefix followed by a code span is split off as the first two pieces. */
  lemma SplitCons(pre: string, code: string, rest: string)
    requires IsCodeSpan(code) && NoFenceIn(pre + code, 0, |pre|)
    ensures Split(pre + code + rest) == [pre, code] + Split(rest)
  {
    var s := pre + code + rest;
    var q, k := |pre|, |pre| + |code| - 3;
    assert IsFenceAt(s, q) by { assert IsFenceAt(code, 0); }
    assert NoFenceIn(s, 0, q) by {
      forall j | 0 <= j < q ensures !IsFenceAt(s, j) {
        assert !IsFenceAt(pre + code, j);
      }
    }
    FindFenceIs(s, 0, q);
    assert IsFenceAt(s, k) by { assert IsFenceAt(code, |code| - 3); }
    assert NoFenceIn(s, q + 3, k) by {
      forall j | q + 3 <= j < k ensures !IsFenceAt(s, j) {
        assert !IsFenceAt(code, j - q);
      }
    }
    FindFenceIs(s, q + 3, k);
    assert s[..q] == pre && s[q..k + 3] == code && s[k + 3..] == rest;
  }

  /** The description determines the pieces: any split of s that satisfies it is Split(s). */
  lemma {:induction false} SplitUnique(s: string, parts: seq<string>)
    requires IsFenceSplit(s, parts)
    ensures parts == Split(s)
    decreases |parts|
  {
    if |parts| == 1 {
      assert s == parts[0];
      SplitNoMatch(s);
    } else {
      var tail := parts[2..];
      TailFenceSplit(s, parts);
      SplitUnique(Concat(tail), tail);
      SplitCons(parts[0], parts[1], Concat(tail));
      assert parts == [parts[0], parts[1]] + tail;
    }
  }

  /** Text with no fence at all is a single plain piece. */
  lemma SplitWithoutFence(s: string)
    requires NoFenceIn(s, 0, |s|)
    ensures Split(s) == [s]
  {
  }

  // ---------------------------------------------------------------------------
  // Rewriting a fenced piece

  predicate IsLower(c: char) {
    'a' <= c <= 'z'
  }

  /** Length of the run of lower-case letters starting at i: what the greedy `[a-z]*` takes. */
  function LowerRun(s: string, i: nat): (n: nat)
    requires i <= |s|
    ensures i + n <= |s|
    ensures forall j :: i <= j < i + n ==> IsLower(s[j])
    ensures i + n == |s| || !IsLower(s[i + n])
    decreases |s| - i
  {
    if i < |s| && IsLower(s[i]) then 1 + LowerRun(s, i + 1) else 0
  }

  /** `/```[a-z]*\n/` matches at q: a fence, lower-case letters, then a newline. Backtracking
      into `[a-z]*` cannot help, since the characters it gives back are letters, not newlines. */
  predicate LangFenceAt(s: string, q: int) {
    IsFenceAt(s, q) && q + 3 + LowerRun(s, q + 3) < |s| && s[q + 3 + LowerRun(s, q + 3)] == '\n'
  }

  /** The first index at or after `from` where `/```[a-z]*\n/` matches. */
  function FindLangFence(s: string, from: nat): (r: Option<nat>)
    ensures r.Some? ==> from <= r.value && LangFenceAt(s, r.value)
    ensures r.Some? ==> forall j :: from <= j < r.value ==> !LangFenceAt(s, j)
    ensures r.None? ==> forall j :: from <= j ==> !LangFenceAt(s, j)
    decreases |s| - from
  {
    if |s| < from + 3 then None
    else if LangFenceAt(s, from) then Some(from)
    else FindLangFence(s, from + 1)
  }

  /** `part.replace(/```[a-z]*\n/, '')`: the leftmost match, if any, is removed. */
  function StripLangFence(s: string): string {
    match FindLangFence(s, 0)
    case None => s
    case Some(q) => s[..q] + s[q + 4 + LowerRun(s, q + 3)..]
  }

  /** `.replace(/```/, '')`: the leftmost fence, if any, is removed. */
  function StripFence(s: string): string {
    match FindFence(s, 0)
    case None => s
    case Some(q) => s[..q] + s[q + 3..]
  }

  /** The text shown inside the code block of a fenced piece. */
  function CodeBody(part: string): string {
    Trim(StripFence(StripLangFence(part)))
  }

  predicate IsLowerWord(w: string) {
    forall i :: 0 <= i < |w| ==> IsLower(w[i])
  }

  /** A block written as fence, language tag, newline, body, fence shows its body trimmed:
      both fences and the tag are removed. */
  lemma CodeBodyOfTaggedBlock(lang: string, body: string)
    requires IsLowerWord(lang)
    requires IsCodeSpan("```" + lang + "\n" + body + "```")
    ensures CodeBody("```" + lang + "\n" + body + "```") == Trim(body)
  {
    StripTag(lang, body);
    BodyHasNoFence(lang, body);
    StripClosingFence(body);
  }

  /** The tag line of a tagged block is the leftmost match of `/```[a-z]*\n/`. */
  lemma StripTag(lang: string, body: string)
    requires IsLowerWord(lang)
    ensures StripLangFence("```" + lang + "\n" + body + "```") == body + "```"
  {
    var p := "```" + lang + "\n" + body + "```";
    var n := |lang|;
    assert p[3 + n] == '\n';
    forall j | 3 <= j < 3 + n ensures IsLower(p[j]) { assert p[j] == lang[j - 3]; }
    LowerRunIs(p, 3, n);
    assert LangFenceAt(p, 0);
    assert FindLangFence(p, 0) == Some(0);
    assert p[..0] + p[4 + n..] == body + "```";
  }

  /** A run of n lower-case letters followed by another character is what `[a-z]*` takes. */
  lemma LowerRunIs(s: string, i: nat, n: nat)
    requires i + n < |s| && !IsLower(s[i + n])
    requires forall j :: i <= j < i + n ==> IsLower(s[j])
    ensures LowerRun(s, i) == n
  {

  }

  lemma BodyHasNoFence(lang: string, body: string)
    requires IsCodeSpan("```" + lang + "\n" + body + "```")
    ensures NoFenceIn(body + "```", 0, |body|)
  {
    var p := "```" + lang + "\n" + body + "```";
    var b := body + "```";
    var n := |lang|;
    forall j | 0 <= j < |body| ensures !IsFenceAt(b, j) {
      assert !IsFenceAt(p, j + 4 + n);
      assert b[j..j + 3] == p[j + 4 + n..j + 7 + n];
    }
  }

  /** With no fence inside the body, `.replace(/```/, '')` removes the closing fence. */
  lemma StripClosingFence(body: string)
    requires NoFenceIn(body + "```", 0, |body|)
    ensures StripFence(body + "```") == body
  {
    var b := body + "```";
    assert IsFenceAt(b, |body|);
    FindFenceIs(b, 0, |body|);
    assert b[..|body|] + b[|body| + 3..] == body;
  }

  /** A fenced piece in which `/```[a-z]*\n/` finds nothing loses only its opening fence. */
  lemma CodeBodyWithoutTag(part: string)
    requires IsFenceAt(part, 0)
    requires FindLangFence(part, 0).None?
    ensures CodeBody(part) == Trim(part[3..])
  {
    assert StripLangFence(part) == part;
    FindFenceIs(part, 0, 0);
    assert part[..0] + part[3..] == part[3..];
    assert StripFence(part) == part[3..];
  }

  /** Without a newline no language line can be found, so the closing fence stays in the body. */
  lemma CodeBodyOneLine(part: string)
    requires IsFenceAt(part, 0)
    requires '\n' !in part
    ensures CodeBody(part) == Trim(part[3..])
  {
    CodeBodyWithoutTag(part);
  }

  /** t between an opening and a closing fence, as a one-line block is written. */
  function Fenced(t: string): (p: string)
    ensures |p| == |t| + 6 && IsFenceAt(p, 0) && IsFenceAt(p, |p| - 3)
  {
    "```" + t + "```"
  }

  lemma FencedHasNoNewline(t: string)
    requires '\n' !in t
    ensures '\n' !in Fenced(t) && Fenced(t)[3..] == t + "```"
  {
    var p := Fenced(t);
    forall i | 0 <= i < |p| ensures p[i] != '\n' {
      if 3 <= i < 3 + |t| { assert p[i] == t[i - 3]; }
    }
  }

  lemma TrimKeepsFence(t: string)
    requires IsTrimmed(t)
    ensures Trim(t + "```") == t + "```"
  {
    var r := t + "```";
    assert r[|r| - 1] == '`';
    if t != [] { assert r[0] == t[0]; }
    assert [] + r + [] == r;
    TrimAround([], r, []);
  }

  /** A one-line block such as "```abc```" shows as "abc```": only the opening fence goes. */
  lemma OneLineBlockKeepsClosingFence(t: string)
    requires '\n' !in t && IsTrimmed(t)
    ensures CodeBody(Fenced(t)) == t + "```"
  {
    FencedHasNoNewline(t);
    CodeBodyOneLine(Fenced(t));
    TrimKeepsFence(t);
  }

  // ---------------------------------------------------------------------------
  // Rendering

  /** One rendered piece: verbatim text (`<span>`) or a code block (`<pre><code>`). */
  datatype Segment = Plain(text: string) | CodeBlock(code: string)

  /** A piece is a code block exactly when it starts with a fence (`part.startsWith('```')`). */
  function RenderPart(part: string): (seg: Segment) {
    if IsFenceAt(part, 0) then CodeBlock(CodeBody(part)) else Plain(part)
  }

  /** `ChatMessageContent`: the pieces of the split, each rendered in order. */
  function RenderContent(content: string): (segs: seq<Segment>) {
    var parts := Split(content);
    seq(|parts|, i requires 0 <= i < |parts| => RenderPart(parts[i]))
  }

  /** Fenced pieces become code blocks; plain pieces, except perhaps the last, are shown verbatim,
      because a plain piece followed by a fenced one contains no fence at all. */
  lemma RenderContentShape(content: string)
    ensures |RenderContent(content)| == |Split(content)| && |Split(content)| % 2 == 1
    ensures forall k :: 0 <= k < |Split(content)| && k % 2 == 1 ==>
      RenderContent(content)[k] == CodeBlock(CodeBody(Split(content)[k]))
    ensures forall k :: 0 <= k < |Split(content)| - 1 && k % 2 == 0 ==>
      RenderContent(content)[k] == Plain(Split(content)[k])
  {
    var parts := Split(content);
    SplitIsFenceSplit(content);
    forall k | 0 <= k < |parts| && k % 2 == 1
      ensures RenderContent(content)[k] == CodeBlock(CodeBody(parts[k]))
    {
      assert IsCodeSpan(parts[k]);
    }
    forall k | 0 <= k < |parts| - 1 && k % 2 == 0
      ensures RenderContent(content)[k] == Plain(parts[k])
    {
      assert NoFenceIn(parts[k] + parts[k + 1], 0, |parts[k]|);
      assert IsFenceAt(parts[k], 0) ==> IsFenceAt(parts[k] + parts[k + 1], 0);
    }
  }

  /** A leading fence that is never closed still makes the whole content one code block. */
  lemma RenderUnclosedFence(content: string)
    requires IsFenceAt(content, 0) && NoFenceIn(content, 3, |content|)
    ensures RenderContent(content) == [CodeBlock(CodeBody(content))]
  {
    SplitNoMatch(content);
  }

  /** Content without any fence is shown as one verbatim piece. */
  lemma RenderWithoutFence(content: string)
    requires NoFenceIn(content, 0, |content|)
    ensures RenderContent(content) == [Plain(content)]
  {
    SplitWithoutFence(content);
  }

  /** A chat bubble: user text is shown as typed; model text goes through the splitter. */
  datatype Bubble = UserBubble(text: string) | ModelBubble(segments: seq<Segment>)

  /** `ChatMessage`: the branch on the message's role. */
  function RenderMessage(m: Message): (b: Bubble)
    ensures b.UserBubble? <==> m.role == User
    ensures b.UserBubble? ==> b.text == m.content
    ensures b.ModelBubble? ==> b.segments == RenderContent(m.content)
  {
    if m.role == User then UserBubble(m.content) else ModelBubble(RenderContent(m.content))
  }

  /** A user message holding a fence followed by a later fence is still shown as typed, while
      the same text from the model is split around a code block. */
  lemma UserBypassesSplitter(content: string, i: nat, j: nat)
    requires IsFenceAt(content, i) && i + 3 <= j && IsFenceAt(content, j)
    ensures RenderMessage(Message(0, User, content)) == UserBubble(content)
    ensures |RenderMessage(Message(1, Model, content)).segments| >= 3
    ensures RenderMessage(Message(1, Model, content)).segments[1].CodeBlock?
  {
    assert FindFence(content, 0).Some?;
    var q := FindFence(content, 0).value;
    assert q <= i;
    assert FindFence(content, q + 3).Some?;
    RenderContentShape(content);
  }
}
