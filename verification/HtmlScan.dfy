/** The structural pass of the HTML-to-text conversion (src/capabilities/execution/executors.ts): one scan from
    left to right in which every search starts where the last one stopped. */
module HtmlScan {
  import opened Ascii
  import opened Optional

  const SKIPPED: set<string> := {"script", "style", "noscript", "svg", "head", "template"}
  const BLOCKS: set<string> := {
    "p", "div", "li", "ul", "ol", "h1", "h2", "h3", "h4", "h5", "h6",
    "tr", "table", "section", "article", "header", "footer", "blockquote", "pre"
  }

  // ---- Searching

  predicate MatchesAt(s: string, p: string, k: nat) {
    k + |p| <= |s| && forall i :: k <= i < k + |p| ==> s[i] == p[i - k]
  }

  /** `indexOf`: the first match at or after `from`. */
  function First(s: string, p: string, from: nat): (k: Option<nat>)
    ensures k.Some? ==> from <= k.value && MatchesAt(s, p, k.value) && forall j :: from <= j < k.value ==> !MatchesAt(s, p, j)
    ensures k.None? ==> forall j :: from <= j ==> !MatchesAt(s, p, j)
    decreases |s| - from
  {
    if from + |p| > |s| then None
    else if MatchesAt(s, p, from) then Some(from)
    else First(s, p, from + 1)
  }

  /** The search as a loop; `examined` counts the characters it compares. */
  method IndexOf(s: string, p: string, from: nat) returns (k: Option<nat>, ghost examined: nat)
    requires from <= |s| && p != ""
    ensures k == First(s, p, from)
    ensures k.Some? && |p| == 1 ==> examined <= k.value + 1 - from
    ensures k.None? && |p| == 1 ==> examined <= |s| - from
    ensures k.Some? && |p| <= 10 ==> examined <= 10 * (k.value + |p| - from)
    ensures k.None? && |p| <= 10 ==> examined <= 10 * (|s| - from)
  {
    var at := from;
    examined := 0;
    while at + |p| <= |s|
      invariant from <= at <= |s|
      invariant First(s, p, from) == First(s, p, at)
      invariant examined <= |p| * (at - from)
    {
      if MatchesAt(s, p, at) {
        Spread(|p|, at - from, at + |p| - from);
        AtMost(|p|, at + |p| - from, examined + |p|);
        return Some(at), examined + |p|;
      }
      Spread(|p|, at - from, at + 1 - from);
      at, examined := at + 1, examined + |p|;
    }
    Larger(|p|, at - from, |s| - from);
    AtMost(|p|, |s| - from, examined);
    return None, examined;
  }

  lemma Spread(n: nat, x: nat, y: nat)
    requires x < y
    ensures n * x + n <= n * y
  {
    Larger(n, x + 1, y);
    assert n * (x + 1) == n * x + n;
  }

  lemma Larger(n: nat, x: nat, y: nat)
    requires x <= y
    ensures n * x <= n * y
  {
  }

  lemma AtMost(n: nat, x: nat, examined: nat)
    requires examined <= n * x
    ensures n == 1 ==> examined <= x
    ensures n <= 10 ==> examined <= 10 * x
  {
    if n <= 10 {
      Wider(n, 10, x);
    }
  }

  lemma Wider(n: nat, m: nat, x: nat)
    requires n <= m
    ensures n * x <= m * x
  {
  }

  // ---- Tag names

  predicate Space(c: char) {
    c == '\t' || c == '\n' || c == '\U{000b}' || c == '\U{000c}' || c == '\r' || c == ' ' || c == '\U{00a0}' || c == '\U{1680}'
    || '\U{2000}' <= c <= '\U{200a}' || c == '\U{2028}' || c == '\U{2029}' || c == '\U{202f}' || c == '\U{205f}' || c == '\U{3000}'
    || c == '\U{feff}'
  }

  predicate Letter(c: char) {
    'a' <= c <= 'z' || 'A' <= c <= 'Z'
  }

  predicate NameChar(c: char) {
    Letter(c) || '0' <= c <= '9' || c == '-'
  }

  function AfterSpaces(s: string, i: nat): (j: nat)
    requires i <= |s|
    ensures i <= j <= |s|
    decreases |s| - i
  {
    if i < |s| && Space(s[i]) then AfterSpaces(s, i + 1) else i
  }

  function NameEnd(s: string, i: nat): (j: nat)
    requires i <= |s|
    ensures i <= j <= |s|
    decreases |s| - i
  {
    if i < |s| && NameChar(s[i]) then NameEnd(s, i + 1) else i
  }

  predicate Closing(inner: string) {
    inner != "" && inner[0] == '/'
  }

  /** The lower-case tag name, or "" when there is none. */
  function TagName(inner: string): string {
    var start := AfterSpaces(inner, if Closing(inner) then 1 else 0);
    if start < |inner| && Letter(inner[start]) then Lower(inner[start..NameEnd(inner, start)]) else ""
  }

  // ---- What the scan writes, from position `i` on

  /** What one tag leaves behind, and where the scan goes on. */
  datatype Tag = Tag(text: string, next: nat)

  function ReadTag(html: string, lt: nat, gt: nat): (t: Tag)
    requires lt < gt < |html|
    ensures gt < t.next <= |html| && |t.text| <= 1 && '<' !in t.text
  {
    var inner := html[lt + 1..gt];
    var name := TagName(inner);
    if !Closing(inner) && name == "br" then Tag("\n", gt + 1)
    else if Closing(inner) && name in BLOCKS then Tag("\n", gt + 1)
    else if !Closing(inner) && name in SKIPPED then
      var close := First(html, "</" + name, gt);
      var end := if close.Some? then First(html, ">", close.value) else None;
      Tag("", if end.Some? then end.value + 1 else |html|)
    else Tag(" ", gt + 1)
  }

  /** The text up to and for the next tag, and where the scan goes on. */
  function Step(html: string, i: nat): (t: Tag)
    requires i < |html|
    ensures i < t.next <= |html| && |t.text| <= t.next - i && '<' !in t.text
  {
    var lt := First(html, "<", i);
    if lt.None? then NoneBefore(html, i, |html|); Tag(html[i..], |html|)
    else StepAt(html, i, lt.value)
  }

  function StepAt(html: string, i: nat, lt: nat): (t: Tag)
    requires i <= lt < |html| && forall j :: i <= j < lt ==> !MatchesAt(html, "<", j)
    ensures lt < t.next <= |html| && |t.text| <= t.next - i && '<' !in t.text
  {
    NoneBefore(html, i, lt);
    if MatchesAt(html, "<!--", lt) then
      var end := First(html, "-->", lt + 4);
      Tag(html[i..lt], if end.Some? then end.value + 3 else |html|)
    else
      var tag := TagAt(html, lt);
      Tag(html[i..lt] + tag.text, tag.next)
  }

  function TagAt(html: string, lt: nat): (t: Tag)
    requires lt < |html|
    ensures lt < t.next <= |html| && |t.text| <= 1 && '<' !in t.text
  {
    var gt := First(html, ">", lt + 1);
    if gt.None? then Tag("", |html|) else ReadTag(html, lt, gt.value)
  }

  function Plain(html: string, i: nat): (out: string)
    requires i <= |html|
    ensures '<' !in out && |out| <= |html| - i
    decreases |html| - i
  {
    if i == |html| then ""
    else var t := Step(html, i); t.text + Plain(html, t.next)
  }

  const COST: nat := 16

  /** The scan. Its searches and its tag reading together examine at most `COST` characters per character. */
  method StructureToText(html: string) returns (out: string, ghost examined: nat)
    ensures out == Plain(html, 0)
    ensures '<' !in out && |out| <= |html|
    ensures examined <= COST * |html|
  {
    out, examined := "", 0;
    var i, n := 0, |html|;
    while i < n
      invariant 0 <= i <= n
      invariant Plain(html, 0) == out + Plain(html, i)
      invariant examined <= COST * i
    {
      var t, seen := ReadStep(html, i);
      assert (out + t.text) + Plain(html, t.next) == out + (t.text + Plain(html, t.next));
      out, i, examined := out + t.text, t.next, examined + seen;
    }
  }

  method ReadStep(html: string, i: nat) returns (t: Tag, ghost examined: nat)
    requires i < |html|
    ensures t == Step(html, i)
    ensures examined <= COST * (t.next - i)
  {
    var lt, seen := IndexOf(html, "<", i);
    if lt.None? {
      return Tag(html[i..], |html|), seen;
    }
    ghost var seen';
    t, seen' := ReadStepAt(html, i, lt.value);
    examined := seen + seen';
  }

  method ReadStepAt(html: string, i: nat, lt: nat) returns (t: Tag, ghost examined: nat)
    requires i <= lt < |html| && forall j :: i <= j < lt ==> !MatchesAt(html, "<", j)
    ensures t == StepAt(html, i, lt)
    ensures examined + 1 <= COST * (t.next - lt)
  {
    if MatchesAt(html, "<!--", lt) {
      var end, seen := IndexOf(html, "-->", lt + 4);
      return Tag(html[i..lt], if end.Some? then end.value + 3 else |html|), 4 + seen;
    }
    var tag;
    tag, examined := ReadTagAt(html, lt);
    return Tag(html[i..lt] + tag.text, tag.next), 4 + examined;
  }

  /** From a '<' that begins no comment: the tag, or the unterminated rest. */
  method ReadTagAt(html: string, lt: nat) returns (tag: Tag, ghost examined: nat)
    requires lt < |html|
    ensures tag == TagAt(html, lt)
    ensures examined + 5 <= COST * (tag.next - lt)
  {
    var gt, seen := IndexOf(html, ">", lt + 1);
    if gt.None? {
      return Tag("", |html|), seen;
    }
    ghost var read;
    tag, read := Skip(html, lt, gt.value);
    examined := seen + read;
  }

  /** Handles one tag, and the block behind it when that is to be skipped. */
  method Skip(html: string, lt: nat, gt: nat) returns (tag: Tag, ghost examined: nat)
    requires lt < gt < |html|
    ensures tag == ReadTag(html, lt, gt)
    ensures examined <= (gt - lt) + 11 * (tag.next - gt)
  {
    var inner := html[lt + 1..gt];
    var closing, name := Closing(inner), TagName(inner);
    examined := |inner| + 1;
    if !closing && name == "br" {
      return Tag("\n", gt + 1), examined;
    }
    if closing && name in BLOCKS {
      return Tag("\n", gt + 1), examined;
    }
    if !closing && name in SKIPPED {
      var closeIdx, seen := IndexOf(html, "</" + name, gt);
      Longest(name);
      examined := examined + seen;
      if closeIdx.None? {
        return Tag("", |html|), examined;
      }
      CloseBehind(html, name, closeIdx.value);
      var closeGt, seen' := IndexOf(html, ">", closeIdx.value);
      examined := examined + seen';
      return Tag("", if closeGt.Some? then closeGt.value + 1 else |html|), examined;
    }
    return Tag(" ", gt + 1), examined;
  }

  lemma Longest(name: string)
    requires name in SKIPPED
    ensures |name| <= 8 && '>' !in name
  {
  }

  /** The '>' that ends a closing tag stands behind its name. */
  lemma CloseBehind(html: string, name: string, close: nat)
    requires MatchesAt(html, "</" + name, close) && '>' !in name
    ensures First(html, ">", close).Some? ==> First(html, ">", close).value >= close + |"</" + name|
  {
    var p := "</" + name;
    forall k: nat | close <= k < close + |p| ensures !MatchesAt(html, ">", k) {
      assert html[close..close + |p|][k - close] == p[k - close];
      MatchesOne(html, '>', k);
    }
  }

  // ---- What the output is

  lemma MatchesOne(html: string, c: char, k: nat)
    ensures MatchesAt(html, [c], k) <==> k < |html| && html[k] == c
  {
  }

  lemma NoneBefore(html: string, i: nat, j: nat)
    requires i <= j <= |html| && forall k :: i <= k < j ==> !MatchesAt(html, "<", k)
    ensures '<' !in html[i..j]
  {
    forall k | i <= k < j ensures html[k] != '<' {
      MatchesOne(html, '<', k);
    }
  }

  /** Text without tags is left as it is. */
  lemma NoTagsUnchanged(html: string)
    requires '<' !in html
    ensures Plain(html, 0) == html
  {
    if html != "" {
      var lt := First(html, "<", 0);
      forall k: nat ensures !MatchesAt(html, "<", k) {
        MatchesOne(html, '<', k);
      }
      assert lt.None?;
      assert Plain(html, |html|) == "";
    }
  }

  /** What stands before position `i` has no influence on what is written from `i` on. */
  lemma {:induction false} Shift(pre: string, s: string, p: string, from: nat)
    ensures First(pre + s, p, |pre| + from) == match First(s, p, from) case None => None case Some(k) => Some(|pre| + k)
    decreases |s| - from
  {
    MatchesShifted(pre, s, p, from);
    if from + |p| <= |s| && !MatchesAt(s, p, from) {
      Shift(pre, s, p, from + 1);
    }
  }

  lemma {:induction false} MatchesShifted(pre: string, s: string, p: string, from: nat)
    ensures MatchesAt(pre + s, p, |pre| + from) <==> MatchesAt(s, p, from)
  {
    if from + |p| <= |s| {
      assert forall i :: from <= i < from + |p| ==> (pre + s)[|pre| + i] == s[i];
      assert forall i :: |pre| + from <= i < |pre| + from + |p| ==> (pre + s)[i] == s[i - |pre|];
    }
  }

  /** A comment leaves nothing behind, whatever is in it. */
  lemma CommentDropped(comment: string, rest: string)
    requires First(comment + "-->" + rest, "-->", 0) == Some(|comment|)
    ensures var html := "<!--" + (comment + "-->" + rest);
            Plain(html, 0) == Plain(html, |html| - |rest|)
  {
    var body := comment + "-->" + rest;
    var html := "<!--" + body;
    Shift("<!--", body, "-->", 0);
    MatchesOne(html, '<', 0);
    assert First(html, "<", 0) == Some(0);
    assert First(html, "-->", 4) == Some(4 + |comment|);
    assert Step(html, 0) == Tag("", 4 + |comment| + 3);
  }

  /** The start of a block whose content is skipped: the tag, with whatever attributes, and where it ends. */
  predicate OpensSkipped(html: string, inner: string) {
    && '>' !in inner && !Closing(inner) && TagName(inner) in SKIPPED
    && 1 + |inner| < |html| && html[0] == '<' && html[1..1 + |inner|] == inner && html[1 + |inner|] == '>'
  }

  /** The first `n` characters leave nothing behind. */
  predicate Drops(html: string, n: nat)
    requires n <= |html|
  {
    Plain(html, 0) == Plain(html, n)
  }

  /** `html` starts with a skipped block whose closing tag begins at `close` and ends before `n`. */
  predicate Block(html: string, inner: string, close: nat, n: nat) {
    && OpensSkipped(html, inner) && First(html, "</" + TagName(inner), 1 + |inner|) == Some(close)
    && close < n <= |html| && html[n - 1] == '>' && forall k :: close <= k < n - 1 ==> html[k] != '>'
  }

  /** A skipped block leaves nothing behind up to the end of its closing tag. */
  lemma {:induction false} BlockDropped(html: string, inner: string, close: nat, n: nat)
    requires Block(html, inner, close, n)
    ensures n <= |html| && Drops(html, n)
  {
    SkippedStep(html, inner, close, n);
    StepSkips(html, n);
  }

  /** Spelled out: any of the skipped tags, with any attributes, any content in which the closing tag does not
      begin, and anything between its name and its '>', is such a block. */
  lemma {:induction false} BlockSpelled(html: string, inner: string, name: string, code: string, tail: string, rest: string)
    requires html == ("<" + inner) + (">" + code + ClosingTag(name, tail, rest))
    requires '>' !in inner && !Closing(inner) && TagName(inner) == name && name in SKIPPED && '>' !in tail
    requires forall k: nat :: k <= |code| ==> !MatchesAt(">" + code + ClosingTag(name, tail, rest), "</" + name, k)
    ensures Block(html, inner, 2 + |inner| + |code|, |html| - |rest|)
  {
    BlockLayout(inner, code, name, tail, rest);
    FirstClosing(html, inner, name, code, tail, rest);
  }

  lemma {:induction false} FirstClosing(html: string, inner: string, name: string, code: string, tail: string, rest: string)
    requires html == ("<" + inner) + (">" + code + ClosingTag(name, tail, rest))
    requires forall k: nat :: k <= |code| ==> !MatchesAt(">" + code + ClosingTag(name, tail, rest), "</" + name, k)
    ensures First(html, "</" + name, 1 + |inner|) == Some(2 + |inner| + |code|)
  {
    var open, body, p := "<" + inner, ">" + code + ClosingTag(name, tail, rest), "</" + name;
    forall k: nat | 1 + |inner| <= k < 2 + |inner| + |code| ensures !MatchesAt(html, p, k) {
      MatchesShifted(open, body, p, k - |open|);
    }
    assert MatchesAt(html, p, 2 + |inner| + |code|) by {
      assert forall i :: 0 <= i < |p| ==> ClosingTag(name, tail, rest)[i] == p[i];
      assert forall i :: 2 + |inner| + |code| <= i < |html| ==> html[i] == ClosingTag(name, tail, rest)[i - (2 + |inner| + |code|)];
    }
    FirstIs(html, p, 1 + |inner|, 2 + |inner| + |code|);
  }

  lemma {:induction false} FirstIs(s: string, p: string, from: nat, at: nat)
    requires from <= at && MatchesAt(s, p, at) && forall k: nat :: from <= k < at ==> !MatchesAt(s, p, k)
    ensures First(s, p, from) == Some(at)
  {
    var found := First(s, p, from);
  }

  function ClosingTag(name: string, tail: string, rest: string): (t: string)
    ensures |t| == 3 + |name| + |tail| + |rest|
  {
    "</" + name + tail + ">" + rest
  }

  lemma {:induction false} StepSkips(html: string, n: nat)
    requires html != "" && Step(html, 0) == Tag("", n)
    ensures Drops(html, n)
  {
  }

  lemma {:induction false} BlockLayout(inner: string, code: string, name: string, tail: string, rest: string)
    requires '>' !in inner && name in SKIPPED && '>' !in tail
    ensures var html := ("<" + inner) + (">" + code + ClosingTag(name, tail, rest));
            var close, n := 2 + |inner| + |code|, |html| - |rest|;
            && html[0] == '<' && html[1..1 + |inner|] == inner && html[1 + |inner|] == '>'
            && close < n && html[n - 1] == '>' && forall k :: close <= k < n - 1 ==> html[k] != '>'
  {
    var closing := ClosingTag(name, tail, rest);
    var html := ("<" + inner) + (">" + code + closing);
    ClosingTagEnds(name, tail, rest);
    assert forall k :: 2 + |inner| + |code| <= k < |html| ==> html[k] == closing[k - (2 + |inner| + |code|)];
  }

  lemma {:induction false} ClosingTagEnds(name: string, tail: string, rest: string)
    requires name in SKIPPED && '>' !in tail
    ensures var closing, end := ClosingTag(name, tail, rest), 2 + |name| + |tail|;
            closing[end] == '>' && forall k :: 0 <= k < end ==> closing[k] != '>'
  {
    Longest(name);
    var closing, end := ClosingTag(name, tail, rest), 2 + |name| + |tail|;
    assert closing[..end] == "</" + name + tail;
    forall k | 0 <= k < end ensures closing[k] != '>' {
      assert closing[k] == ("</" + name + tail)[k];
    }
  }

  /** A block that is never closed swallows the rest. */
  lemma {:induction false} UnclosedDropped(html: string, inner: string)
    requires OpensSkipped(html, inner) && First(html, "</" + TagName(inner), 1 + |inner|).None?
    ensures Plain(html, 0) == ""
  {
    OpensAtStart(html, inner);
    assert ReadTag(html, 0, 1 + |inner|) == Tag("", |html|);
    assert html[0..0] + "" == "";
    assert Step(html, 0) == Tag("", |html|);
    assert Plain(html, |html|) == "";
  }

  lemma {:induction false} SkippedStep(html: string, inner: string, close: nat, n: nat)
    requires Block(html, inner, close, n)
    ensures html != "" && Step(html, 0) == Tag("", n)
  {
    OpensAtStart(html, inner);
    SkippedTag(html, inner, close, n);
    NothingBefore(html, 1 + |inner|, Tag("", n));
  }

  lemma {:induction false} NothingBefore(html: string, gt: nat, t: Tag)
    requires First(html, "<", 0) == Some(0) && !MatchesAt(html, "<!--", 0) && First(html, ">", 1) == Some(gt)
    requires ReadTag(html, 0, gt) == t
    ensures Step(html, 0) == t
  {
    assert html[0..0] + t.text == t.text;
  }

  lemma {:induction false} SkippedTag(html: string, inner: string, close: nat, n: nat)
    requires Block(html, inner, close, n)
    ensures ReadTag(html, 0, 1 + |inner|) == Tag("", n)
  {
    FirstGt(html, close, n - 1);
  }

  /** The scan meets the tag first, takes it for no comment, and finds its end. */
  lemma {:induction false} OpensAtStart(html: string, inner: string)
    requires OpensSkipped(html, inner)
    ensures First(html, "<", 0) == Some(0) && !MatchesAt(html, "<!--", 0) && First(html, ">", 1) == Some(1 + |inner|)
  {
    MatchesOne(html, '<', 0);
    forall k | 1 <= k < 1 + |inner| ensures html[k] == inner[k - 1] {
      assert html[1..1 + |inner|][k - 1] == html[k];
    }
    FirstGt(html, 1, 1 + |inner|);
    BangHasNoName(inner);
    CommentBang(html);
  }

  lemma {:induction false} BangHasNoName(inner: string)
    ensures inner != "" && inner[0] == '!' ==> TagName(inner) == ""
  {
    assert inner != "" && inner[0] == '!' ==> AfterSpaces(inner, 0) == 0;
  }

  lemma {:induction false} CommentBang(html: string)
    ensures MatchesAt(html, "<!--", 0) ==> |html| > 1 && html[1] == '!'
  {
    assert MatchesAt(html, "<!--", 0) ==> html[1] == "<!--"[1];
  }

  lemma FirstGt(html: string, from: nat, at: nat)
    requires from <= at < |html| && html[at] == '>' && forall k :: from <= k < at ==> html[k] != '>'
    ensures First(html, ">", from) == Some(at)
  {
    forall k: nat | from <= k <= at ensures MatchesAt(html, ">", k) <==> k == at {
      MatchesOne(html, '>', k);
    }
    assert MatchesAt(html, ">", at);
  }

  /** Any other tag leaves one character: a newline for a break or the end of a block, else a space. */
  lemma TagLeaves(inner: string, rest: string)
    requires '>' !in inner && !MatchesAt("<" + inner + ">" + rest, "<!--", 0)
    requires Closing(inner) || TagName(inner) !in SKIPPED
    ensures var html := "<" + inner + ">" + rest;
            var newline := if Closing(inner) then TagName(inner) in BLOCKS else TagName(inner) == "br";
            Plain(html, 0) == (if newline then "\n" else " ") + Plain(html, |html| - |rest|)
  {
    var html := "<" + inner + ">" + rest;
    assert html[1..1 + |inner|] == inner && html[1 + |inner|] == '>' && html[0] == '<';
    assert forall k :: 1 <= k < 1 + |inner| ==> html[k] == inner[k - 1];
    TagStep(html, inner);
  }

  lemma TagStep(html: string, inner: string)
    requires '>' !in inner && 1 + |inner| < |html| && html[0] == '<' && html[1..1 + |inner|] == inner && html[1 + |inner|] == '>'
    requires !MatchesAt(html, "<!--", 0) && (Closing(inner) || TagName(inner) !in SKIPPED)
    ensures Step(html, 0)
         == Tag(if (if Closing(inner) then TagName(inner) in BLOCKS else TagName(inner) == "br") then "\n" else " ", |inner| + 2)
  {
    MatchesOne(html, '<', 0);
    assert forall k :: 1 <= k < 1 + |inner| ==> html[k] == inner[k - 1];
    FirstGt(html, 1, 1 + |inner|);
    assert html[0..0] + ReadTag(html, 0, 1 + |inner|).text == ReadTag(html, 0, 1 + |inner|).text;
  }
}
