/** String primitives of the JavaScript runtime that the core relies on:
    the white-space class shared by `\s` and `String.prototype.trim`,
    `trim`, `indexOf` on one character, `startsWith`, ASCII lower-casing
    and the last segment of `split(".")`. */
module JsText {

  /** The characters JavaScript's `\s` and `trim()` both treat as white
      space: WhiteSpace (tab, vertical tab, form feed, space, no-break
      space, byte-order mark and the Zs category) and LineTerminator. */
  predicate IsJsSpace(c: char)
  {
    || c == '\t' || c == '\n' || c == '\U{000B}' || c == '\U{000C}' || c == '\r'
    || c == ' ' || c == '\U{00A0}' || c == '\U{1680}'
    || ('\U{2000}' <= c <= '\U{200A}')
    || c == '\U{2028}' || c == '\U{2029}' || c == '\U{202F}' || c == '\U{205F}'
    || c == '\U{3000}' || c == '\U{FEFF}'
  }

  /** `s` with its leading white space removed. */
  function TrimStart(s: string): (r: string)
    ensures |r| <= |s| && r == s[|s| - |r|..]
    ensures r == [] || !IsJsSpace(r[0])
  {
    if s != [] && IsJsSpace(s[0]) then TrimStart(s[1..]) else s
  }

  /** Everything `TrimStart` removes is white space. */
  lemma {:induction false} TrimStartRemovesSpace(s: string)
    ensures forall i :: 0 <= i < |s| - |TrimStart(s)| ==> IsJsSpace(s[i])
  {
    if s != [] && IsJsSpace(s[0]) {
      TrimStartRemovesSpace(s[1..]);
    }
  }

  /** `s` with its trailing white space removed. */
  function TrimEnd(s: string): (r: string)
    ensures |r| <= |s| && r == s[..|r|]
    ensures r == [] || !IsJsSpace(r[|r| - 1])
  {
    if s != [] && IsJsSpace(s[|s| - 1]) then TrimEnd(s[..|s| - 1]) else s
  }

  /** Everything `TrimEnd` removes is white space. */
  lemma {:induction false} TrimEndRemovesSpace(s: string)
    ensures forall i :: |TrimEnd(s)| <= i < |s| ==> IsJsSpace(s[i])
  {
    if s != [] && IsJsSpace(s[|s| - 1]) {
      TrimEndRemovesSpace(s[..|s| - 1]);
    }
  }

  /** `s.trim()`: the longest infix of `s` that neither starts nor ends
      with white space, once all white space at both ends is gone. */
  function Trim(s: string): (r: string)
    ensures |r| <= |s|
    ensures r == [] || (!IsJsSpace(r[0]) && !IsJsSpace(r[|r| - 1]))
  {
    TrimEnd(TrimStart(s))
  }

  /** `s.indexOf(c)`: the first position of `c` in `s`, or -1. */
  function IndexOf(s: string, c: char): (r: int)
    ensures -1 <= r < |s|
    ensures r == -1 <==> c !in s
    ensures 0 <= r ==> s[r] == c && c !in s[..r]
  {
    if s == [] then -1
    else if s[0] == c then 0
    else
      var k := IndexOf(s[1..], c);
      assert s[1..] == s[1..][..|s| - 1];
      if k == -1 then -1
      else
        assert s[..k + 1] == [s[0]] + s[1..][..k];
        k + 1
  }

  /** `s.startsWith(p)`. */
  predicate StartsWith(s: string, p: string)
  {
    |p| <= |s| && s[..|p|] == p
  }

  function LowerChar(c: char): char
  {
    if 'A' <= c <= 'Z' then (c as int + 32) as char else c
  }

  /** Lower-casing restricted to ASCII letters. */
  function LowerAscii(s: string): (r: string)
    ensures |r| == |s|
    ensures forall i :: 0 <= i < |s| ==> r[i] == LowerChar(s[i])
  {
    seq(|s|, i requires 0 <= i < |s| => LowerChar(s[i]))
  }

  /** `s.split(".").pop()`: the text after the last `.` of `s`, or all of
      `s` when it has no `.`. */
  function LastSegment(s: string): (r: string)
    ensures |r| <= |s| && r == s[|s| - |r|..]
    ensures '.' !in r
    ensures |r| < |s| ==> s[|s| - |r| - 1] == '.'
  {
    if s == [] then []
    else if s[|s| - 1] == '.' then []
    else
      var r := LastSegment(s[..|s| - 1]) + [s[|s| - 1]];
      assert r == s[|s| - |r|..];
      r
  }

  /** Only the text after the last `.` matters. */
  lemma {:induction false} LastSegmentAfterDot(base: string, ext: string)
    requires '.' !in ext
    ensures LastSegment(base + "." + ext) == ext
  {
    var s := base + "." + ext;
    if ext == [] {
      assert s[|s| - 1] == '.';
    } else {
      var init := ext[..|ext| - 1];
      assert s[..|s| - 1] == base + "." + init;
      assert '.' !in init by { assert forall k :: 0 <= k < |init| ==> init[k] == ext[k]; }
      LastSegmentAfterDot(base, init);
      assert init + [ext[|ext| - 1]] == ext;
    }
  }

  /** The last segment is the one suffix that holds no `.` and follows a
      `.` or the start of the text. */
  lemma LastSegmentIs(s: string, k: int)
    requires 0 <= k <= |s| && '.' !in s[k..] && (k == 0 || s[k - 1] == '.')
    ensures LastSegment(s) == s[k..]
  {
  }

  /** Lower-casing commutes with taking the last segment, since `.` is
      the only character that lower-cases to `.`. */
  lemma LastSegmentLower(s: string)
    ensures LastSegment(LowerAscii(s)) == LowerAscii(LastSegment(s))
  {
    var r := LastSegment(s);
    var k := |s| - |r|;
    var l := LowerAscii(s);
    LowerSuffix(s, k);
    LowerNoDot(r);
    LowerDotBefore(s, k);
    SegmentAt(l, k, LowerAscii(r));
  }

  lemma LowerDotBefore(s: string, k: int)
    requires 0 <= k <= |s| && (0 < k ==> s[k - 1] == '.')
    ensures k == 0 || LowerAscii(s)[k - 1] == '.'
  {
  }

  lemma SegmentAt(l: string, k: int, t: string)
    requires 0 <= k <= |l| && l[k..] == t && '.' !in t && (k == 0 || l[k - 1] == '.')
    ensures LastSegment(l) == t
  {
    LastSegmentIs(l, k);
  }

  lemma LowerSuffix(s: string, k: int)
    requires 0 <= k <= |s|
    ensures LowerAscii(s)[k..] == LowerAscii(s[k..])
  {
  }

  lemma LowerNoDot(t: string)
    requires '.' !in t
    ensures '.' !in LowerAscii(t)
  {
    var l := LowerAscii(t);
    forall i | 0 <= i < |t|
      ensures l[i] != '.'
    {
      assert l[i] == LowerChar(t[i]);
    }
  }

  /** Lower-casing twice is lower-casing once. */
  lemma LowerAsciiIdempotent(s: string)
    ensures LowerAscii(LowerAscii(s)) == LowerAscii(s)
  {
  }

  // ---------------------------------------------------------------------
  // Property reads on plain objects
  // ---------------------------------------------------------------------

  /** A JavaScript value as far as a property read on a plain object and
      `||` can see it: a string, `undefined`, or a member every plain
      object inherits from `Object.prototype` (a built-in function, or the
      prototype object itself for `__proto__`). */
  datatype JsValue = Str(s: string) | Undefined | Inherited(member: string)

  /** The names every object literal inherits from `Object.prototype`. */
  const ObjectPrototypeMembers: set<string> := {
    "constructor", "__proto__", "__defineGetter__", "__defineSetter__",
    "__lookupGetter__", "__lookupSetter__", "hasOwnProperty", "isPrototypeOf",
    "propertyIsEnumerable", "toString", "toLocaleString", "valueOf"
  }

  /** `obj[key]` on a plain object whose own properties are the strings
      `own`: own entries first, then the prototype chain. */
  function PropertyOf(own: map<string, string>, key: string): (v: JsValue)
    ensures key in own ==> v == Str(own[key])
    ensures key !in own ==> (v.Undefined? <==> key !in ObjectPrototypeMembers)
    ensures v.Inherited? ==> v.member == key
  {
    if key in own then Str(own[key])
    else if key in ObjectPrototypeMembers then Inherited(key)
    else Undefined
  }

  /** `a || b`: a non-empty string, a function and an object are truthy. */
  function OrElse(a: JsValue, b: string): (v: JsValue)
    ensures a.Str? && a.s != [] ==> v == a
    ensures a.Inherited? ==> v == a
    ensures (a.Str? && a.s == []) || a.Undefined? ==> v == Str(b)
  {
    match a
    case Str(s) => if s != "" then a else Str(b)
    case Undefined => Str(b)
    case Inherited(_) => a
  }

  /** What `${v}` prints: a string as it is; `undefined`; the prototype
      object as `[object Object]`; a built-in function as its source text
      `function name() { [native code] }`, where the function reached
      through `constructor` is `Object`. */
  function TemplateText(v: JsValue): (r: string)
    ensures v.Str? ==> r == v.s
    ensures v.Inherited? && v.member != "__proto__" ==> |r| > 9 && r[..9] == "function "
  {
    match v
    case Str(s) => s
    case Undefined => "undefined"
    case Inherited(m) =>
      if m == "__proto__" then "[object Object]"
      else "function " + (if m == "constructor" then "Object" else m) + "() { [native code] }"
  }

  /** The printed form of an inherited member starts with `f` (a
      function's source text) or `[` (`[object Object]`). */
  lemma InheritedText(m: string)
    ensures var r := TemplateText(Inherited(m)); |r| > 0 && (r[0] == 'f' || r[0] == '[')
    ensures m == "constructor" ==> TemplateText(Inherited(m)) == "function Object() { [native code] }"
    ensures m == "__proto__" ==> TemplateText(Inherited(m)) == "[object Object]"
  {
    var r := TemplateText(Inherited(m));
    if m == "__proto__" {
      assert r[0] == '[';
    } else {
      assert r[..9] == "function ";
      assert r[0] == r[..9][0];
      if m == "constructor" {
        ConstructorText();
      }
    }
  }

  lemma ConstructorText()
    ensures TemplateText(Inherited("constructor")) == "function Object() { [native code] }"
  {
  }
}
