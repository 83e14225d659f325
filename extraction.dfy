/** `extractJSON`: recovering the estimate object from the generator's
    free-form reply. Markdown fences are removed, the reply is trimmed, and
    the text from the first `{` to the `}` that brings the brace depth back
    to zero is delimited. Parsing that text as JSON is not modelled: the
    result is the delimited text itself. */
module ResponseExtraction {
  import opened Wrappers
  import opened JsText

  /** The two ways extraction fails before any parsing: no `{` anywhere
      ("No JSON found in response"), or a `{` whose depth never returns
      to zero ("Response was cut off"). */
  datatype ExtractError = NoJsonFound | CutOff

  predicate FenceAt(s: string, i: int)
  {
    0 <= i && i + 3 <= |s| && s[i] == '`' && s[i + 1] == '`' && s[i + 2] == '`'
  }

  /** `s` holds no run of three backticks. */
  predicate NoFence(s: string)
  {
    forall i :: 0 <= i < |s| ==> !FenceAt(s, i)
  }

  /** `s` starts with a language-tagged fence: three backticks and `json`
      in any letter case. */
  predicate TaggedFenceAt0(s: string)
  {
    && |s| >= 7 && FenceAt(s, 0)
    && LowerChar(s[3]) == 'j' && LowerChar(s[4]) == 's'
    && LowerChar(s[5]) == 'o' && LowerChar(s[6]) == 'n'
  }

  /** `s.replace(/```json\s*\/gi, "")`: every tagged fence, together with
      the white space after it, is removed, scanning left to right. */
  function DropTaggedFences(s: string): string
    decreases |s|
  {
    if TaggedFenceAt0(s) then DropTaggedFences(TrimStart(s[7..]))
    else if s == [] then []
    else [s[0]] + DropTaggedFences(s[1..])
  }

  /** `s.replace(/```\s*\/gi, "")`: every run of three backticks, together
      with the white space after it, is removed, scanning left to right. */
  function DropFences(s: string): string
    decreases |s|
  {
    if FenceAt(s, 0) then DropFences(TrimStart(s[3..]))
    else if s == [] then []
    else [s[0]] + DropFences(s[1..])
  }

  lemma DropFencesKeep(s: string)
    requires s != [] && s[0] != '`'
    ensures DropFences(s) == [s[0]] + DropFences(s[1..])
  {
  }

  lemma FencesCons(c: char, s: string)
    requires c != '`'
    ensures DropFences([c] + s) == [c] + DropFences(s)
  {
    DropFencesKeep([c] + s);
    assert ([c] + s)[1..] == s;
  }

  lemma TaggedCons(c: char, s: string)
    requires c != '`'
    ensures DropTaggedFences([c] + s) == [c] + DropTaggedFences(s)
  {
    DropTaggedKeep([c] + s);
    assert ([c] + s)[1..] == s;
  }

  lemma DropFencesSkip(s: string)
    requires FenceAt(s, 0)
    ensures DropFences(s) == DropFences(TrimStart(s[3..]))
  {
  }

  lemma DropTaggedKeep(s: string)
    requires s != [] && !TaggedFenceAt0(s)
    ensures DropTaggedFences(s) == [s[0]] + DropTaggedFences(s[1..])
  {
  }

  /** No run of three backticks survives `DropFences`, and its result can
      only start with backticks its input started with. */
  lemma {:induction false} DropFencesLeavesNoFence(s: string)
    ensures NoFence(DropFences(s))
    ensures var r := DropFences(s);
      && (r != [] && r[0] == '`' ==> s != [] && s[0] == '`')
      && (|r| >= 2 && r[0] == '`' && r[1] == '`' ==> |s| >= 2 && s[0] == '`' && s[1] == '`')
    decreases |s|
  {
    if FenceAt(s, 0) {
      DropFencesLeavesNoFence(TrimStart(s[3..]));
    } else if s != [] {
      DropFencesLeavesNoFence(s[1..]);
      var rest := DropFences(s[1..]);
      assert DropFences(s) == [s[0]] + rest;
      ConsNoFence(s[0], rest);
    }
  }

  lemma ConsNoFence(c: char, rest: string)
    requires NoFence(rest)
    requires !(c == '`' && |rest| >= 2 && rest[0] == '`' && rest[1] == '`')
    ensures NoFence([c] + rest)
  {
    var s := [c] + rest;
    forall i | 1 <= i < |s|
      ensures !FenceAt(s, i)
    {
      assert !FenceAt(rest, i - 1);
    }
  }

  lemma NoFenceSlice(s: string, lo: int, hi: int)
    requires NoFence(s) && 0 <= lo <= hi <= |s|
    ensures NoFence(s[lo..hi])
  {
    forall i | 0 <= i < hi - lo
      ensures !FenceAt(s[lo..hi], i)
    {
      assert !FenceAt(s, lo + i);
    }
  }

  /** The cleaned reply: both fence kinds removed, then trimmed. */
  function StripFences(text: string): (r: string)
  {
    Trim(DropFences(DropTaggedFences(text)))
  }

  /** The cleaned reply holds no fence and neither starts nor ends with
      white space. */
  lemma StripFencesClean(text: string)
    ensures var r := StripFences(text);
      && NoFence(r)
      && (r == [] || (!IsJsSpace(r[0]) && !IsJsSpace(r[|r| - 1])))
  {
    var t := DropTaggedFences(text);
    var d := DropFences(t);
    DropFencesLeavesNoFence(t);
    TrimmedNoFence(d);
    assert StripFences(text) == Trim(d);
  }

  lemma TrimmedNoFence(d: string)
    requires NoFence(d)
    ensures NoFence(Trim(d))
  {
    var t := TrimStart(d);
    NoFenceSlice(d, |d| - |t|, |d|);
    assert d[|d| - |t|..|d|] == t;
    var u := TrimEnd(t);
    NoFenceSlice(t, 0, |u|);
    assert t[0..|u|] == u;
  }

  lemma {:induction false} TaggedPlainPrefix(p: string, q: string)
    requires '`' !in p
    ensures DropTaggedFences(p + q) == p + DropTaggedFences(q)
  {
    if p == [] {
      assert p + q == q;
    } else {
      var c, p', x := p[0], p[1..], DropTaggedFences(q);
      assert p == [c] + p';
      assert p + q == [c] + (p' + q);
      assert p + x == [c] + (p' + x);
      TaggedPlainPrefix(p', q);
      TaggedCons(c, p' + q);
    }
  }

  lemma {:induction false} FencesPlainPrefix(p: string, q: string)
    requires '`' !in p
    ensures DropFences(p + q) == p + DropFences(q)
  {
    if p == [] {
      assert p + q == q;
    } else {
      var c, p', x := p[0], p[1..], DropFences(q);
      assert p == [c] + p';
      assert p + q == [c] + (p' + q);
      assert p + x == [c] + (p' + x);
      FencesPlainPrefix(p', q);
      FencesCons(c, p' + q);
    }
  }

  lemma ClosingFence()
    ensures DropTaggedFences("```") == "```"
    ensures DropFences("```") == ""
  {
    TaggedPassKeepsFence();
    BarePassDropsFence();
  }

  lemma TaggedPassKeepsFence()
    ensures DropTaggedFences("```") == "```"
  {
    var one, two, three := "`", "``", "```";
    assert DropTaggedFences(one) == one by {
      assert !TaggedFenceAt0(one) && one[1..] == [];
    }
    assert DropTaggedFences(two) == two by {
      assert !TaggedFenceAt0(two) && two[1..] == one;
    }
    assert !TaggedFenceAt0(three) && three[1..] == two;
  }

  lemma BarePassDropsFence()
    ensures DropFences("```") == ""
  {
    var three := "```";
    assert FenceAt(three, 0) && three[3..] == [];
  }

  lemma TrimLine(body: string)
    requires body != [] && !IsJsSpace(body[0]) && !IsJsSpace(body[|body| - 1])
    ensures Trim(body + "\n") == body
  {
    var inner := body + "\n";
    assert TrimStart(inner) == inner by {
      assert inner[0] == body[0];
    }
    assert TrimEnd(inner) == TrimEnd(body) by {
      assert inner[|inner| - 1] == '\n';
      assert inner[..|inner| - 1] == body;
    }
  }

  lemma DropClosingFence(body: string)
    requires '`' !in body
    ensures DropFences(body + "\n```") == body + "\n"
  {
    var inner := body + "\n";
    assert '`' !in inner;
    assert body + "\n```" == inner + "```";
    FencesPlainPrefix(inner, "```");
    ClosingFence();
  }

  lemma FencedTail(body: string)
    requires body != [] && '`' !in body
    requires !IsJsSpace(body[0]) && !IsJsSpace(body[|body| - 1])
    ensures Trim(DropFences(body + "\n```")) == body
  {
    DropClosingFence(body);
    TrimLine(body);
  }

  lemma TagOpensFence(rest: string)
    ensures TaggedFenceAt0("```json" + rest) && ("```json" + rest)[7..] == rest
  {
    var s := "```json" + rest;
    assert s[3] == 'j' && s[4] == 's' && s[5] == 'o' && s[6] == 'n';
  }

  lemma TaggedOpening(rest: string)
    ensures DropTaggedFences("```json" + rest) == DropTaggedFences(TrimStart(rest))
  {
    TagOpensFence(rest);
  }

  lemma TrimNewline(x: string)
    requires x != [] && !IsJsSpace(x[0])
    ensures TrimStart("\n" + x) == x
  {
    assert ("\n" + x)[1..] == x;
  }

  lemma TaggedLine(tail: string)
    requires tail != [] && !IsJsSpace(tail[0])
    ensures DropTaggedFences("```json" + ("\n" + tail)) == DropTaggedFences(tail)
  {
    TaggedOpening("\n" + tail);
    TrimNewline(tail);
  }

  lemma PlainThenFence(body: string)
    requires '`' !in body
    ensures DropTaggedFences(body + "\n```") == body + "\n```"
  {
    var inner := body + "\n";
    assert '`' !in inner;
    assert body + "\n```" == inner + "```";
    TaggedPlainPrefix(inner, "```");
    ClosingFence();
  }

  lemma TaggedBlock(body: string)
    requires body != [] && '`' !in body && !IsJsSpace(body[0])
    ensures DropTaggedFences("```json\n" + body + "\n```") == body + "\n```"
  {
    var tail := body + "\n```";
    assert "```json\n" + body + "\n```" == "```json" + ("\n" + tail);
    TaggedLine(tail);
    PlainThenFence(body);
  }

  lemma BareOpening(rest: string)
    requires rest != [] && rest[0] == '\n'
    ensures DropTaggedFences("```" + rest) == "```" + DropTaggedFences(rest)
  {
    var s0 := "```" + rest;
    var s1 := "``" + rest;
    var s2 := "`" + rest;
    assert s0[3] == '\n' && s1[2] == '\n' && s2[1] == '\n';
    DropTaggedKeep(s0);
    assert s0[1..] == s1;
    DropTaggedKeep(s1);
    assert s1[1..] == s2;
    DropTaggedKeep(s2);
    assert s2[1..] == rest;
  }

  lemma BareBlockTagged(body: string)
    requires '`' !in body
    ensures DropTaggedFences("```\n" + body + "\n```") == "```\n" + body + "\n```"
  {
    var inner := "\n" + body + "\n";
    var rest := inner + "```";
    assert "```\n" + body + "\n```" == "```" + rest;
    assert rest[0] == '\n';
    BareOpening(rest);
    assert '`' !in inner;
    TaggedPlainPrefix(inner, "```");
    ClosingFence();
  }

  lemma BareBlockFence(body: string)
    requires body != [] && !IsJsSpace(body[0])
    ensures DropFences("```\n" + body + "\n```") == DropFences(body + "\n```")
  {
    var tail := body + "\n```";
    var bare := "```" + ("\n" + tail);
    assert "```\n" + body + "\n```" == bare;
    assert FenceAt(bare, 0) && bare[3..] == "\n" + tail;
    DropFencesSkip(bare);
    TrimNewline(tail);
  }

  /** A body without backticks wrapped in a fenced block, tagged or bare,
      comes out of cleaning exactly as it went in. */
  lemma StripFencedBlock(body: string)
    requires body != [] && '`' !in body
    requires !IsJsSpace(body[0]) && !IsJsSpace(body[|body| - 1])
    ensures StripFences("```json\n" + body + "\n```") == body
    ensures StripFences("```\n" + body + "\n```") == body
  {
    TaggedBlock(body);
    BareBlockTagged(body);
    BareBlockFence(body);
    FencedTail(body);
  }

  /** Occurrences of `c` in `s`. */
  function Count(s: string, c: char): nat
  {
    if s == [] then 0 else Count(s[..|s| - 1], c) + (if s[|s| - 1] == c then 1 else 0)
  }

  /** The brace depth after scanning `s`: opening minus closing braces,
      wherever they stand (inside string literals too). */
  function Balance(s: string): int
  {
    Count(s, '{') - Count(s, '}')
  }

  lemma {:induction false} CountAppend(a: string, b: string, c: char)
    ensures Count(a + b, c) == Count(a, c) + Count(b, c)
  {
    if b == [] {
      assert a + b == a;
    } else {
      assert (a + b)[..|a + b| - 1] == a + b[..|b| - 1];
      CountAppend(a, b[..|b| - 1], c);
    }
  }

  lemma BalanceAppend(a: string, b: string)
    ensures Balance(a + b) == Balance(a) + Balance(b)
  {
    CountAppend(a, b, '{');
    CountAppend(a, b, '}');
  }

  /** Without a closing brace, a text that opens one never gets back to
      depth zero. */
  lemma {:induction false} NoCloseStaysOpen(s: string)
    requires '}' !in s && '{' in s
    ensures Balance(s) > 0
  {
    var last := s[|s| - 1];
    assert s == s[..|s| - 1] + [last];
    if '{' in s[..|s| - 1] {
      NoCloseStaysOpen(s[..|s| - 1]);
    } else {
      assert last == '{';
      assert Count(s[..|s| - 1], '}') == 0 by { NoCountWithout(s[..|s| - 1], '}'); }
    }
  }

  lemma {:induction false} NoCountWithout(s: string, c: char)
    requires c !in s
    ensures Count(s, c) == 0
  {
    if s != [] {
      assert c !in s[..|s| - 1];
      NoCountWithout(s[..|s| - 1], c);
    }
  }

  /** `s` is well nested: its depth never drops below zero and ends at
      zero. */
  predicate WellNested(s: string)
  {
    && Balance(s) == 0
    && forall j :: 0 <= j <= |s| ==> Balance(s[..j]) >= 0
  }

  lemma BraceFreeWellNested(s: string)
    requires '{' !in s && '}' !in s
    ensures WellNested(s)
  {
    forall j | 0 <= j <= |s|
      ensures Balance(s[..j]) == 0
    {
      NoCountWithout(s[..j], '{');
      NoCountWithout(s[..j], '}');
    }
  }

  /** Wrapping a well-nested text in braces gives an object whose depth
      stays positive until its very last character closes it. */
  lemma WrapWellNested(inner: string)
    requires WellNested(inner)
    ensures var s := "{" + inner + "}";
      && WellNested(s)
      && forall j :: 0 < j < |s| ==> Balance(s[..j]) > 0
  {
    var s := "{" + inner + "}";
    BalanceAppend("{" + inner, "}");
    BalanceAppend("{", inner);
    assert Balance("{") == 1 && Balance("}") == -1 by {
      assert "{"[..0] == [] && "}"[..0] == [];
    }
    forall j | 0 < j < |s|
      ensures Balance(s[..j]) > 0
    {
      assert s[..j] == "{" + inner[..j - 1];
      BalanceAppend("{", inner[..j - 1]);
    }
    assert s[..|s|] == s;
    assert s[..0] == [];
  }

  lemma BalanceStep(s: string, i: int, j: int)
    requires 0 <= i <= j < |s|
    ensures Balance(s[i..j + 1])
      == Balance(s[i..j]) + (if s[j] == '{' then 1 else if s[j] == '}' then -1 else 0)
  {
    assert s[i..j + 1][..j - i] == s[i..j];
  }

  /** Every non-empty prefix of `s[start..hi]` is still open. */
  predicate OpenThrough(s: string, start: int, hi: int)
    requires 0 <= start <= hi <= |s|
  {
    forall j :: start < j <= hi ==> Balance(s[start..j]) > 0
  }

  /** The scan of `extractJSON` from the `{` at `start`: the exclusive end
      of the first prefix whose depth returns to zero, or `None` when the
      text runs out while still open. */
  method ScanObject(clean: string, start: int) returns (end: Option<int>)
    requires 0 <= start < |clean| && clean[start] == '{'
    ensures end.None? ==> OpenThrough(clean, start, |clean|)
    ensures end.Some? ==>
      && start < end.value <= |clean|
      && Balance(clean[start..end.value]) == 0
      && OpenThrough(clean, start, end.value - 1)
  {
    var depth := 0;
    var i := start;
    while i < |clean|
      invariant start <= i <= |clean|
      invariant depth == Balance(clean[start..i])
      invariant OpenThrough(clean, start, i)
    {
      BalanceStep(clean, start, i);
      if clean[i] == '{' {
        depth := depth + 1;
      } else if clean[i] == '}' {
        depth := depth - 1;
        if depth == 0 {
          return Some(i + 1);
        }
      }
      assert i > start ==> Balance(clean[start..i]) > 0;
      i := i + 1;
    }
    return None;
  }

  /** What `extractJSON` delimits in the cleaned reply `clean`: no `{` at
      all is `NoJsonFound`; otherwise the text runs from the first `{` to
      the earliest point where the depth returns to zero (every shorter
      prefix still open), an object text that starts with `{`, ends with
      `}` and is balanced; `CutOff` only when no prefix closes. */
  predicate Delimits(clean: string, r: Result<string, ExtractError>)
  {
    DelimitsFrom(clean, IndexOf(clean, '{'), r)
  }

  /** `Delimits` with the position of the first `{` (or -1) given. */
  predicate DelimitsFrom(clean: string, start: int, r: Result<string, ExtractError>)
    requires -1 <= start < |clean|
  {
    && (r == Failure(NoJsonFound) <==> start == -1)
    && (r == Failure(CutOff) ==> 0 <= start && OpenThrough(clean, start, |clean|))
    && (r.Success? ==>
          && |r.value| >= 2 && r.value[0] == '{' && r.value[|r.value| - 1] == '}'
          && Balance(r.value) == 0
          && 0 <= start && start + |r.value| <= |clean|
          && r.value == clean[start..start + |r.value|]
          && OpenThrough(clean, start, start + |r.value| - 1))
  }

  /** The scan of `extractJSON` over an already cleaned reply. */
  method DelimitObject(clean: string) returns (r: Result<string, ExtractError>)
    ensures Delimits(clean, r)
  {
    var start := IndexOf(clean, '{');
    if start == -1 {
      return Failure(NoJsonFound);
    }
    var end := ScanObject(clean, start);
    if end.None? {
      return Failure(CutOff);
    }
    var obj := clean[start..end.value];
    ClosingBrace(clean, start, end.value);
    return Success(obj);
  }

  /** `extractJSON(text)` up to the final `JSON.parse`: fences removed and
      the reply trimmed, then the first object delimited. */
  method ExtractJson(text: string) returns (r: Result<string, ExtractError>)
    ensures Delimits(StripFences(text), r)
  {
    var clean := StripFences(text);
    r := DelimitObject(clean);
  }

  /** The delimited text starts with its `{` and, since its depth drops
      from positive to zero at its last character, ends with a `}`. */
  lemma ClosingBrace(s: string, start: int, end: int)
    requires 0 <= start < end <= |s| && s[start] == '{'
    requires Balance(s[start..end]) == 0 && OpenThrough(s, start, end - 1)
    ensures end - start >= 2 && s[start..end][0] == '{' && s[end - 1] == '}'
  {
    BalanceStep(s, start, start);
    if end - start >= 2 {
      BalanceStep(s, start, end - 1);
    }
  }

  /** `Delimits` pins the outcome down: at most one result satisfies it,
      so it is a complete description of what `ExtractJson` returns. */
  lemma DelimitsUnique(clean: string, r1: Result<string, ExtractError>, r2: Result<string, ExtractError>)
    requires Delimits(clean, r1) && Delimits(clean, r2)
    ensures r1 == r2
  {
    Outcome(clean, r1);
    Outcome(clean, r2);
    if r1.Success? && r2.Success? {
      var start := IndexOf(clean, '{');
      var e1 := start + |r1.value|;
      var e2 := start + |r2.value|;
      SameEnd(clean, start, e1, e2);
    }
  }

  /** The three outcomes `Delimits` allows, each with the condition on the
      cleaned text that selects it. */
  lemma Outcome(clean: string, r: Result<string, ExtractError>)
    requires Delimits(clean, r)
    ensures var start := IndexOf(clean, '{');
      && (r.Success? ==> start != -1 && !OpenThrough(clean, start, |clean|))
      && (r.Failure? && start == -1 ==> r.error == NoJsonFound)
      && (r.Failure? && start != -1 ==> r.error == CutOff && OpenThrough(clean, start, |clean|))
  {
    var start := IndexOf(clean, '{');
    if r.Success? {
      var e := start + |r.value|;
      ClosesAt(clean, start, e);
    } else if start != -1 {
      assert r != Failure(NoJsonFound);
      assert r.error == CutOff;
    }
  }

  /** Once the depth is back to zero at `e`, the text is not cut off. */
  lemma ClosesAt(clean: string, start: int, e: int)
    requires 0 <= start < e <= |clean| && Balance(clean[start..e]) == 0
    ensures !OpenThrough(clean, start, |clean|)
  {
    assert !(Balance(clean[start..e]) > 0);
  }

  /** Two prefixes that each close with every shorter prefix open are the
      same prefix. */
  lemma SameEnd(clean: string, start: int, e1: int, e2: int)
    requires 0 <= start < e1 <= |clean| && 0 <= start < e2 <= |clean|
    requires Balance(clean[start..e1]) == 0 && OpenThrough(clean, start, e1 - 1)
    requires Balance(clean[start..e2]) == 0 && OpenThrough(clean, start, e2 - 1)
    ensures e1 == e2
  {
  }

  lemma FirstBrace(pre: string, obj: string, post: string)
    requires '{' !in pre && obj != [] && obj[0] == '{'
    ensures IndexOf(pre + obj + post, '{') == |pre|
  {
    var s := pre + obj + post;
    assert s[|pre|] == '{';
    assert s[..|pre|] == pre;
  }

  lemma OpenPrefixes(pre: string, obj: string, post: string)
    requires obj != [] && forall j :: 0 < j < |obj| ==> Balance(obj[..j]) > 0
    ensures OpenThrough(pre + obj + post, |pre|, |pre| + |obj| - 1)
  {
    var s := pre + obj + post;
    forall j | |pre| < j <= |pre| + |obj| - 1
      ensures Balance(s[|pre|..j]) > 0
    {
      assert s[|pre|..j] == obj[..j - |pre|];
    }
  }

  /** An object with well-nested contents, after text without braces, is
      delimited exactly, whatever follows it. */
  lemma ObjectDelimited(pre: string, inner: string, post: string)
    requires '{' !in pre && WellNested(inner)
    ensures Delimits(pre + ("{" + inner + "}") + post, Success("{" + inner + "}"))
  {
    WrapWellNested(inner);
    PlacedObject(pre, "{" + inner + "}", post);
  }

  /** An object whose depth first returns to zero at its last character,
      after text without braces, is what gets delimited. */
  lemma PlacedObject(pre: string, obj: string, post: string)
    requires '{' !in pre && obj != [] && obj[0] == '{' && Balance(obj) == 0
    requires forall j :: 0 < j < |obj| ==> Balance(obj[..j]) > 0
    ensures Delimits(pre + obj + post, Success(obj))
  {
    var clean := pre + obj + post;
    var start, end := |pre|, |pre| + |obj|;
    assert clean[start..end] == obj;
    OpenPrefixes(pre, obj, post);
    SuccessFrom(clean, start, end);
    FirstBrace(pre, obj, post);
    AtFirstBrace(clean, start, Success(obj));
  }

  lemma AtFirstBrace(clean: string, start: int, r: Result<string, ExtractError>)
    requires start == IndexOf(clean, '{') && DelimitsFrom(clean, start, r)
    ensures Delimits(clean, r)
  {
  }

  /** The first `{` closing at `end`, every shorter prefix open, is the
      delimited object. */
  lemma SuccessDelimits(clean: string, start: int, end: int)
    requires start == IndexOf(clean, '{') && 0 <= start < end <= |clean|
    requires Balance(clean[start..end]) == 0 && OpenThrough(clean, start, end - 1)
    ensures Delimits(clean, Success(clean[start..end]))
  {
    SuccessFrom(clean, start, end);
  }

  /** `SuccessDelimits` for a `{` at `start`, kept apart from the search
      for the first one. */
  lemma SuccessFrom(clean: string, start: int, end: int)
    requires 0 <= start < end <= |clean| && clean[start] == '{'
    requires Balance(clean[start..end]) == 0 && OpenThrough(clean, start, end - 1)
    ensures DelimitsFrom(clean, start, Success(clean[start..end]))
  {
    ClosingBrace(clean, start, end);
    assert start + (end - start) == end;
  }

  /** An opened object with no closing brace after it is cut off. */
  lemma UnclosedCutOff(pre: string, rest: string)
    requires '{' !in pre && '}' !in rest
    ensures Delimits(pre + "{" + rest, Failure(CutOff))
  {
    var obj := "{" + rest;
    var clean := pre + obj;
    OpenToEnd(pre, rest);
    assert DelimitsFrom(clean, |pre|, Failure(CutOff));
    FirstBrace(pre, obj, []);
    assert clean + [] == clean;
    AtFirstBrace(clean, |pre|, Failure(CutOff));
    assert clean == pre + "{" + rest;
  }

  /** After a `{` with no `}` following it, the depth stays positive to
      the end of the text. */
  lemma OpenToEnd(pre: string, rest: string)
    requires '}' !in rest
    ensures OpenThrough(pre + ("{" + rest), |pre|, |pre + ("{" + rest)|)
  {
    var obj := "{" + rest;
    var clean := pre + obj;
    var start := |pre|;
    forall j | start < j <= |clean|
      ensures Balance(clean[start..j]) > 0
    {
      var k := j - start;
      assert clean[start..j] == obj[..k];
      assert obj[..k] == "{" + rest[..k - 1];
      assert '}' !in rest[..k - 1] by {
        assert forall i :: 0 <= i < k - 1 ==> rest[..k - 1][i] == rest[i];
      }
      NoCloseStaysOpen(obj[..k]);
    }
  }

  /** A reply with no `{` left after cleaning has no JSON. */
  lemma NoBraceNoJson(clean: string)
    requires '{' !in clean
    ensures Delimits(clean, Failure(NoJsonFound))
  {
  }

  /** The generator's usual reply: a well-nested object in a `json` or
      bare fence comes out as exactly that object. */
  lemma FencedObjectExtracted(inner: string)
    requires WellNested(inner) && '`' !in inner
    ensures var obj := "{" + inner + "}";
      && Delimits(StripFences("```json\n" + obj + "\n```"), Success(obj))
      && Delimits(StripFences("```\n" + obj + "\n```"), Success(obj))
  {
    var obj := "{" + inner + "}";
    assert '`' !in obj;
    StripFencedBlock(obj);
    ObjectDelimited([], inner, []);
    assert [] + obj + [] == obj;
  }

  /** Braces inside JSON string literals are counted like any other: in
      `{"a":"}"}` the quoted `}` closes the object early. */
  lemma QuotedBraceCloses()
    ensures Delimits("{\"a\":\"}\"}", Success("{\"a\":\"}"))
  {
    var inner := "\"a\":\"";
    BraceFreeWellNested(inner);
    ObjectDelimited([], inner, "\"}");
    QuotedPieces(inner);
  }

  lemma QuotedPieces(inner: string)
    requires inner == "\"a\":\""
    ensures [] + ("{" + inner + "}") + "\"}" == "{\"a\":\"}\"}"
    ensures "{" + inner + "}" == "{\"a\":\"}"
  {
  }
}
