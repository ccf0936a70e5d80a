/**
 * How the chat client cuts an assistant reply into display segments
 * (`processResponse` in public/js/script.js): the reply is split on the
 * triple-backtick fence; even-numbered parts are prose, odd-numbered parts
 * are code blocks whose first line names the language.
 */
module Segmentation {
  import opened Strings

  datatype Segment =
    | Prose(text: string)
    | Code(language: string, body: string)

  const Fence: string := "```"
  const Newline: string := "\n"

  /**
   * An odd-numbered part: the first line, trimmed, is the language label; the
   * remaining lines, joined back with newlines and trimmed, are the body.
   */
  function CodeBlock(part: string): (seg: Segment)
    ensures seg.Code?
  {
    var lines := Split(part, Newline);
    Code(Trim(lines[0]), Trim(Join(lines[1..], Newline)))
  }

  /** The segments contributed by the part at position `index` of the split. */
  function PartSegments(part: string, index: nat): seq<Segment> {
    if index % 2 == 0 then ProseOf(part) else [CodeBlock(part)]
  }

  /** A prose part: its trimmed text, or nothing when that is empty. */
  function ProseOf(part: string): seq<Segment> {
    if Trim(part) == [] then [] else [Prose(Trim(part))]
  }

  /**
   * A prose part is dropped exactly when it is all whitespace; otherwise it is
   * one segment whose text neither starts nor ends with whitespace.
   */
  lemma ProseOfBlank(part: string)
    ensures ProseOf(part) == [] <==> AllWhitespace(part)
    ensures ProseOf(part) != [] ==>
      && ProseOf(part) == [Prose(Trim(part))]
      && !IsWhitespace(Trim(part)[0]) && !IsWhitespace(Trim(part)[|Trim(part)| - 1])
  {
    TrimEmpty(part);
    TrimShape(part);
  }

  /** What each part of the split contributes, part by part (`parts.forEach((part, index) => ...)`). */
  function PartsSegments(parts: seq<string>): (r: seq<seq<Segment>>)
    ensures |r| == |parts|
  {
    seq(|parts|, i requires 0 <= i < |parts| => PartSegments(parts[i], i))
  }

  /** `processResponse`: a reply without a fence is one untrimmed prose segment. */
  function ProcessResponse(response: string): seq<Segment> {
    if Includes(response, Fence) then Concat(PartsSegments(Split(response, Fence)))
    else [Prose(response)]
  }

  /** Concatenation of a sequence of sequences, in order. */
  function Concat<T>(xss: seq<seq<T>>): seq<T> {
    if xss == [] then [] else xss[0] + Concat(xss[1..])
  }

  /** The elements at odd positions 1, 3, 5, ... */
  function Odds<T>(xs: seq<T>): (r: seq<T>)
    ensures |r| == |xs| / 2
  {
    seq(|xs| / 2, j requires 0 <= j < |xs| / 2 => xs[2 * j + 1])
  }

  /** The elements at even positions 0, 2, 4, ... */
  function Evens<T>(xs: seq<T>): (r: seq<T>)
    ensures |r| == (|xs| + 1) / 2
  {
    seq((|xs| + 1) / 2, j requires 0 <= j < (|xs| + 1) / 2 => xs[2 * j])
  }

  /** Each odd-positioned element as a singleton, each even-positioned one as nothing. */
  function OddSingletons<T>(xs: seq<T>): (r: seq<seq<T>>)
    ensures |r| == |xs|
  {
    seq(|xs|, i requires 0 <= i < |xs| => if i % 2 == 1 then [xs[i]] else [])
  }

  /** The even-positioned sequences kept, the odd-positioned ones emptied. */
  function EvenOnly<T>(yss: seq<seq<T>>): (r: seq<seq<T>>)
    ensures |r| == |yss|
  {
    seq(|yss|, i requires 0 <= i < |yss| => if i % 2 == 0 then yss[i] else [])
  }

  /** The code segments of a segment sequence, in order. */
  function Codes(segs: seq<Segment>): seq<Segment> {
    if segs == [] then []
    else (if segs[0].Code? then [segs[0]] else []) + Codes(segs[1..])
  }

  /** The texts of the prose segments of a segment sequence, in order. */
  function ProseTexts(segs: seq<Segment>): seq<string> {
    if segs == [] then []
    else (if segs[0].Prose? then [segs[0].text] else []) + ProseTexts(segs[1..])
  }

  function CodeBlocks(xs: seq<string>): (r: seq<Segment>)
    ensures |r| == |xs|
  {
    seq(|xs|, j requires 0 <= j < |xs| => CodeBlock(xs[j]))
  }

  /** The prose texts of some parts: each trimmed, the blank ones left out. */
  function NonBlankTrims(xs: seq<string>): seq<string> {
    Concat(PartProseTexts(xs))
  }

  lemma ConcatCons<T>(xs: seq<T>, yss: seq<seq<T>>)
    ensures Concat([xs] + yss) == xs + Concat(yss)
  {
    assert ([xs] + yss)[1..] == yss;
  }

  lemma {:induction false} CodesAppend(a: seq<Segment>, b: seq<Segment>)
    ensures Codes(a + b) == Codes(a) + Codes(b)
    decreases |a|
  {
    if a == [] {
      assert a + b == b;
    } else {
      assert (a + b)[0] == a[0];
      assert (a + b)[1..] == a[1..] + b;
      CodesAppend(a[1..], b);
    }
  }

  lemma {:induction false} ProseTextsAppend(a: seq<Segment>, b: seq<Segment>)
    ensures ProseTexts(a + b) == ProseTexts(a) + ProseTexts(b)
    decreases |a|
  {
    if a == [] {
      assert a + b == b;
    } else {
      assert (a + b)[0] == a[0];
      assert (a + b)[1..] == a[1..] + b;
      ProseTextsAppend(a[1..], b);
    }
  }

  /** Taking the code segments commutes with concatenation. */
  lemma {:induction false} CodesConcat(xss: seq<seq<Segment>>)
    ensures Codes(Concat(xss)) == Concat(seq(|xss|, i requires 0 <= i < |xss| => Codes(xss[i])))
    decreases |xss|
  {
    if xss != [] {
      var m := seq(|xss|, i requires 0 <= i < |xss| => Codes(xss[i]));
      var tail := seq(|xss| - 1, i requires 0 <= i < |xss| - 1 => Codes(xss[1..][i]));
      assert m == [Codes(xss[0])] + tail;
      ConcatCons(Codes(xss[0]), tail);
      CodesConcat(xss[1..]);
      assert Concat(xss) == xss[0] + Concat(xss[1..]);
      CodesAppend(xss[0], Concat(xss[1..]));
    }
  }

  /** Taking the prose texts commutes with concatenation. */
  lemma {:induction false} ProseTextsConcat(xss: seq<seq<Segment>>)
    ensures ProseTexts(Concat(xss)) == Concat(seq(|xss|, i requires 0 <= i < |xss| => ProseTexts(xss[i])))
    decreases |xss|
  {
    if xss != [] {
      var m := seq(|xss|, i requires 0 <= i < |xss| => ProseTexts(xss[i]));
      var tail := seq(|xss| - 1, i requires 0 <= i < |xss| - 1 => ProseTexts(xss[1..][i]));
      assert m == [ProseTexts(xss[0])] + tail;
      ConcatCons(ProseTexts(xss[0]), tail);
      ProseTextsConcat(xss[1..]);
      assert Concat(xss) == xss[0] + Concat(xss[1..]);
      ProseTextsAppend(xss[0], Concat(xss[1..]));
    }
  }

  lemma {:induction false} ConcatOddSingletons<T>(xs: seq<T>)
    ensures Concat(OddSingletons(xs)) == Odds(xs)
    decreases |xs|
  {
    if |xs| == 1 {
      assert OddSingletons(xs) == [[]] + [];
      ConcatCons<T>([], []);
    } else if |xs| >= 2 {
      var rest := xs[2..];
      ConcatOddSingletons(rest);
      assert OddSingletons(xs) == [[]] + ([[xs[1]]] + OddSingletons(rest));
      ConcatCons([], [[xs[1]]] + OddSingletons(rest));
      ConcatCons([xs[1]], OddSingletons(rest));
      assert Odds(xs) == [xs[1]] + Odds(rest);
    }
  }

  lemma {:induction false} ConcatEvenOnly<T>(yss: seq<seq<T>>)
    ensures Concat(EvenOnly(yss)) == Concat(Evens(yss))
    decreases |yss|
  {
    if |yss| == 1 {
      assert EvenOnly(yss) == [yss[0]] + [];
      assert Evens(yss) == [yss[0]] + [];
      ConcatCons(yss[0], []);
    } else if |yss| >= 2 {
      var rest := yss[2..];
      ConcatEvenOnly(rest);
      assert EvenOnly(yss) == [yss[0]] + ([[]] + EvenOnly(rest));
      assert Evens(yss) == [yss[0]] + Evens(rest);
      ConcatCons(yss[0], [[]] + EvenOnly(rest));
      ConcatCons([], EvenOnly(rest));
      ConcatCons(yss[0], Evens(rest));
    } else {
      assert Evens(yss) == [];
    }
  }

  lemma PartSegmentCodes(part: string, i: nat)
    ensures Codes(PartSegments(part, i)) == if i % 2 == 1 then [CodeBlock(part)] else []
  {
    if i % 2 == 1 {
      var c := CodeBlock(part);
      assert Codes([c]) == [c];
    }
  }

  lemma PartSegmentProse(part: string, i: nat)
    ensures ProseTexts(PartSegments(part, i)) == if i % 2 == 0 then ProseTexts(ProseOf(part)) else []
  {
    if i % 2 == 1 {
      var c := CodeBlock(part);
      assert ProseTexts([c]) == [];
    }
  }

  lemma PartCodes(parts: seq<string>)
    ensures seq(|parts|, i requires 0 <= i < |parts| => Codes(PartsSegments(parts)[i]))
         == OddSingletons(CodeBlocks(parts))
  {
    var a := seq(|parts|, i requires 0 <= i < |parts| => Codes(PartsSegments(parts)[i]));
    var b := OddSingletons(CodeBlocks(parts));
    forall i | 0 <= i < |parts| ensures a[i] == b[i] {
      PartSegmentCodes(parts[i], i);
    }
  }

  lemma PartProse(parts: seq<string>)
    ensures seq(|parts|, i requires 0 <= i < |parts| => ProseTexts(PartsSegments(parts)[i]))
         == EvenOnly(PartProseTexts(parts))
  {
    var a := seq(|parts|, i requires 0 <= i < |parts| => ProseTexts(PartsSegments(parts)[i]));
    var b := EvenOnly(PartProseTexts(parts));
    forall i | 0 <= i < |parts| ensures a[i] == b[i] {
      PartSegmentProse(parts[i], i);
    }
  }

  lemma OddCodeBlocks(parts: seq<string>)
    ensures Odds(CodeBlocks(parts)) == CodeBlocks(Odds(parts))
  {
  }

  /** The prose texts of each part, position by position. */
  function PartProseTexts(parts: seq<string>): (r: seq<seq<string>>)
    ensures |r| == |parts|
  {
    seq(|parts|, i requires 0 <= i < |parts| => ProseTexts(ProseOf(parts[i])))
  }

  lemma EvenProse(parts: seq<string>)
    ensures Concat(Evens(PartProseTexts(parts))) == NonBlankTrims(Evens(parts))
  {
    var e := Evens(parts);
    assert Evens(PartProseTexts(parts)) == PartProseTexts(e);
  }

  /** A reply with no fence is shown whole, untrimmed, even when it is blank. */
  lemma Unfenced(response: string)
    requires forall i :: !OccursAt(response, Fence, i)
    ensures ProcessResponse(response) == [Prose(response)]
  {
  }

  /** A fenced reply with `n` fences splits into `n + 1` fence-free parts, at least two. */
  lemma FencedParts(response: string)
    requires Includes(response, Fence)
    ensures var parts := Split(response, Fence);
      && |parts| == Occurrences(response, Fence) + 1 >= 2
      && Join(parts, Fence) == response
      && (forall k :: 0 <= k < |parts| ==> !Includes(parts[k], Fence))
  {
    SplitSingle(response, Fence);
    SplitPartsFree(response, Fence);
    SplitCount(response, Fence);
    SplitJoin(response, Fence);
  }

  /**
   * The code segments of a fenced reply are exactly the code blocks of its
   * odd-positioned parts, in order: `(n + 1) / 2` of them for `n` fences, even
   * for empty parts.
   */
  lemma FencedCodes(response: string)
    requires Includes(response, Fence)
    ensures var parts := Split(response, Fence);
      && Codes(ProcessResponse(response)) == CodeBlocks(Odds(parts))
      && |Codes(ProcessResponse(response))| == (Occurrences(response, Fence) + 1) / 2
  {
    var parts := Split(response, Fence);
    SplitCount(response, Fence);
    CodesConcat(PartsSegments(parts));
    PartCodes(parts);
    ConcatOddSingletons(CodeBlocks(parts));
    OddCodeBlocks(parts);
  }

  /**
   * The prose segments of a fenced reply are the even-positioned parts, each
   * trimmed, the blank ones left out, in order.
   */
  lemma FencedProse(response: string)
    requires Includes(response, Fence)
    ensures ProseTexts(ProcessResponse(response)) == NonBlankTrims(Evens(Split(response, Fence)))
  {
    var parts := Split(response, Fence);
    ProseTextsConcat(PartsSegments(parts));
    PartProse(parts);
    ConcatEvenOnly(PartProseTexts(parts));
    EvenProse(parts);
  }

  lemma NewlineAt(s: string, i: int)
    ensures OccursAt(s, Newline, i) <==> 0 <= i < |s| && s[i] == '\n'
  {
    if 0 <= i < |s| {
      assert s[i..i + 1] == [s[i]];
    }
  }

  /** A code part without a newline is all language label and an empty body. */
  lemma CodeBlockOneLine(part: string)
    requires forall k :: 0 <= k < |part| ==> part[k] != '\n'
    ensures CodeBlock(part) == Code(Trim(part), [])
  {
    forall i ensures !OccursAt(part, Newline, i) {
      NewlineAt(part, i);
    }
    SplitSingle(part, Newline);
  }

  /** A code part whose first newline is at `i`: label before it, body after it, both trimmed. */
  lemma CodeBlockLines(part: string, i: nat)
    requires i < |part| && part[i] == '\n'
    requires forall k :: 0 <= k < i ==> part[k] != '\n'
    ensures CodeBlock(part) == Code(Trim(part[..i]), Trim(part[i + 1..]))
  {
    NewlineAt(part, i);
    forall k | 0 <= k < i ensures !OccursAt(part, Newline, k) {
      NewlineAt(part, k);
    }
    SplitAtFirst(part, Newline, i);
    SplitJoin(part[i + 1..], Newline);
  }

  /** A fence can start only at a backtick. */
  lemma FenceAtBacktick(s: string, i: int)
    requires OccursAt(s, Fence, i)
    ensures s[i] == '`'
  {
    assert s[i] == s[i..i + 3][0];
  }

  lemma NoFenceBefore(s: string, n: nat)
    requires n <= |s|
    requires forall k :: 0 <= k < n ==> s[k] != '`'
    ensures forall k :: 0 <= k < n ==> !OccursAt(s, Fence, k)
  {
    forall k | 0 <= k < n && OccursAt(s, Fence, k) ensures false {
      FenceAtBacktick(s, k);
    }
  }

  lemma Concat2<T>(x: seq<T>, y: seq<T>)
    ensures Concat([x, y]) == x + y
  {
    assert [x, y] == [x] + [y] && [y] == [y] + [];
    ConcatCons(x, [y]);
    ConcatCons(y, []);
  }

  lemma Concat3<T>(x: seq<T>, y: seq<T>, z: seq<T>)
    ensures Concat([x, y, z]) == x + y + z
  {
    assert [x, y, z][1..] == [y, z];
    Concat2(y, z);
  }

  lemma PartsSegments3(a: string, b: string, c: string)
    ensures PartsSegments([a, b, c]) == [PartSegments(a, 0), PartSegments(b, 1), PartSegments(c, 2)]
  {
  }

  lemma PartsSegments2(a: string, b: string)
    ensures PartsSegments([a, b]) == [PartSegments(a, 0), PartSegments(b, 1)]
  {
  }

  predicate NoBacktick(s: string) {
    forall k :: 0 <= k < |s| ==> s[k] != '`'
  }

  /** Splitting at a fence that follows backtick-free text. */
  lemma SplitAfterPlain(before: string, rest: string)
    requires NoBacktick(before)
    ensures Split(before + Fence + rest, Fence) == [before] + Split(rest, Fence)
  {
    var r := before + Fence + rest;
    var n := |before|;
    assert r[..n] == before && r[n..n + 3] == Fence && r[n + 3..] == rest;
    NoFenceBefore(r, n);
    SplitAtFirst(r, Fence, n);
  }

  lemma SplitPlain(s: string)
    requires NoBacktick(s)
    ensures Split(s, Fence) == [s]
  {
    NoFenceBefore(s, |s|);
    SplitSingle(s, Fence);
  }

  lemma NoBacktickLines(lang: string, body: string)
    requires NoBacktick(lang) && NoBacktick(body)
    ensures NoBacktick(lang + Newline + body)
  {
    var code := lang + Newline + body;
    forall k | 0 <= k < |code| ensures code[k] != '`' {
      if k > |lang| { assert code[k] == body[k - |lang| - 1]; }
    }
  }

  lemma CodeLines(lang: string, body: string)
    requires forall k :: 0 <= k < |lang| ==> lang[k] != '\n'
    ensures CodeBlock(lang + Newline + body) == Code(Trim(lang), Trim(body))
  {
    var code := lang + Newline + body;
    assert code[..|lang|] == lang && code[|lang| + 1..] == body;
    CodeBlockLines(code, |lang|);
  }

  /** A fenced reply is the concatenation of what its parts contribute. */
  lemma FencedSegments(r: string, parts: seq<string>)
    requires Includes(r, Fence) && Split(r, Fence) == parts
    ensures ProcessResponse(r) == Concat(PartsSegments(parts))
  {
  }

  lemma ThreeParts(before: string, code: string, after: string)
    requires NoBacktick(before) && NoBacktick(code) && NoBacktick(after)
    ensures var r := before + Fence + code + Fence + after;
      Includes(r, Fence) && Split(r, Fence) == [before, code, after]
  {
    var r := before + Fence + code + Fence + after;
    assert r == before + Fence + (code + Fence + after);
    assert OccursAt(r, Fence, |before|) by { assert r[|before|..|before| + 3] == Fence; }
    SplitAfterPlain(before, code + Fence + after);
    SplitAfterPlain(code, after);
    SplitPlain(after);
  }

  lemma TwoParts(before: string, code: string)
    requires NoBacktick(before) && NoBacktick(code)
    ensures var r := before + Fence + code;
      Includes(r, Fence) && Split(r, Fence) == [before, code]
  {
    var r := before + Fence + code;
    assert OccursAt(r, Fence, |before|) by { assert r[|before|..|before| + 3] == Fence; }
    SplitAfterPlain(before, code);
    SplitPlain(code);
  }

  /** `before` + fenced `lang` line and `body` + `after`: prose, one code block, prose. */
  lemma OneCodeBlock(before: string, lang: string, body: string, after: string)
    requires NoBacktick(before) && NoBacktick(lang) && NoBacktick(body) && NoBacktick(after)
    requires forall k :: 0 <= k < |lang| ==> lang[k] != '\n'
    ensures ProcessResponse(before + Fence + lang + Newline + body + Fence + after)
         == ProseOf(before) + [Code(Trim(lang), Trim(body))] + ProseOf(after)
  {
    var code := lang + Newline + body;
    var r := before + Fence + code + Fence + after;
    assert before + Fence + lang + Newline + body + Fence + after == r;
    NoBacktickLines(lang, body);
    ThreeParts(before, code, after);
    FencedSegments(r, [before, code, after]);
    PartsSegments3(before, code, after);
    Concat3(PartSegments(before, 0), PartSegments(code, 1), PartSegments(after, 2));
    CodeLines(lang, body);
  }

  /** An unterminated fence still yields its trailing code block. */
  lemma UnterminatedCodeBlock(before: string, lang: string, body: string)
    requires NoBacktick(before) && NoBacktick(lang) && NoBacktick(body)
    requires forall k :: 0 <= k < |lang| ==> lang[k] != '\n'
    ensures ProcessResponse(before + Fence + lang + Newline + body)
         == ProseOf(before) + [Code(Trim(lang), Trim(body))]
  {
    var code := lang + Newline + body;
    var r := before + Fence + code;
    assert before + Fence + lang + Newline + body == r;
    NoBacktickLines(lang, body);
    TwoParts(before, code);
    FencedSegments(r, [before, code]);
    PartsSegments2(before, code);
    Concat2(PartSegments(before, 0), PartSegments(code, 1));
    CodeLines(lang, body);
  }

  lemma ProseUnpadded(s: string)
    requires s != [] && !IsWhitespace(s[0]) && !IsWhitespace(s[|s| - 1])
    ensures ProseOf(s) == [Prose(s)]
  {
    TrimUnpadded(s);
  }

  lemma ExampleFencedText()
    ensures "a```js\nconsole.log(1)```b" == "a" + Fence + "js" + Newline + "console.log(1)" + Fence + "b"
    ensures NoBacktick("a") && NoBacktick("js") && NoBacktick("console.log(1)") && NoBacktick("b")
  {
  }

  lemma ExampleFencedTrims()
    ensures ProseOf("a") == [Prose("a")] && ProseOf("b") == [Prose("b")]
    ensures Trim("js") == "js" && Trim("console.log(1)") == "console.log(1)"
  {
    ProseUnpadded("a");
    ProseUnpadded("b");
    TrimUnpadded("js");
    TrimUnpadded("console.log(1)");
  }

  /** The worked example: prose, a `js` code block, prose. */
  lemma ExampleFenced()
    ensures ProcessResponse("a```js\nconsole.log(1)```b")
         == [Prose("a"), Code("js", "console.log(1)"), Prose("b")]
  {
    ExampleFencedText();
    ExampleFencedTrims();
    OneCodeBlock("a", "js", "console.log(1)", "b");
  }

  /** A reply without fences is one prose segment. */
  lemma ExamplePlain()
    ensures ProcessResponse("hello") == [Prose("hello")]
  {
    NoFenceBefore("hello", 5);
  }
}
