/**
 * The small part of JavaScript's built-in semantics that the client service relies on:
 * the values `JSON.parse` produces, truthiness, `String(v)`, `String.prototype.trim`,
 * `toLowerCase`, `includes`, `split` with a one-character separator and `Array.prototype.join`.
 */
module JsValue {
  import opened Wrappers

  /** A value as `JSON.parse` delivers it; `Missing` stands for `undefined` (a property that is not there). */
  datatype Raw =
    | Missing
    | Null
    | Bool(b: bool)
    | Number(n: int)
    | Text(s: string)
    | List(items: seq<Raw>)
    | Object(fields: map<string, Raw>)

  /** `undefined` and `null`: reading a property of either throws a TypeError. */
  predicate Nullish(v: Raw) {
    v.Missing? || v.Null?
  }

  /** JavaScript truthiness: `undefined`, `null`, `false`, `0` and `''` are falsy, everything else is truthy. */
  predicate Truthy(v: Raw) {
    match v
    case Missing => false
    case Null => false
    case Bool(b) => b
    case Number(n) => n != 0
    case Text(s) => s != ""
    case List(_) => true
    case Object(_) => true
  }

  /** `v[key]` for a value that is not nullish; only an object has own properties the model reads. */
  function Get(v: Raw, key: string): Raw
    requires !Nullish(v)
  {
    if v.Object? && key in v.fields then v.fields[key] else Missing
  }

  // ---------------------------------------------------------------- String(v)

  function DigitChar(d: nat): char
    requires d < 10
  {
    (48 + d) as char
  }

  function Digits(n: nat): string
    decreases n
  {
    if n < 10 then [DigitChar(n)] else Digits(n / 10) + [DigitChar(n % 10)]
  }

  function DecimalString(n: int): string {
    if n < 0 then "-" + Digits(-n) else Digits(n)
  }

  /**
   * `String(v)`: an array is the `','`-join of its elements, with `null` and `undefined`
   * elements written as the empty string; a plain object is `"[object Object]"`.
   */
  function ToJsString(v: Raw): string
    decreases v
  {
    match v
    case Missing => "undefined"
    case Null => "null"
    case Bool(b) => if b then "true" else "false"
    case Number(n) => DecimalString(n)
    case Text(s) => s
    case List(items) =>
      Join(seq(|items|, i requires 0 <= i < |items| =>
             if Nullish(items[i]) then "" else ToJsString(items[i])), ',')
    case Object(_) => "[object Object]"
  }

  // ---------------------------------------------------------------- trim

  /** The characters `String.prototype.trim` removes: WhiteSpace and LineTerminator of ECMAScript. */
  predicate IsWhitespace(c: char) {
    || c == '\t' || c == '\n' || c == '\U{B}' || c == '\U{C}' || c == '\r' || c == ' '
    || c == '\U{A0}' || c == '\U{1680}' || ('\U{2000}' <= c <= '\U{200A}')
    || c == '\U{2028}' || c == '\U{2029}' || c == '\U{202F}' || c == '\U{205F}'
    || c == '\U{3000}' || c == '\U{FEFF}'
  }

  predicate AllWhitespace(s: string) {
    forall k :: 0 <= k < |s| ==> IsWhitespace(s[k])
  }

  /** Neither end of `s` is whitespace. */
  predicate Trimmed(s: string) {
    s == [] || (!IsWhitespace(s[0]) && !IsWhitespace(s[|s| - 1]))
  }

  /** `r` is `s` with the whitespace run of length `i` cut off its front and only whitespace cut off its back. */
  predicate StripsTo(s: string, i: int, r: string) {
    && 0 <= i && i + |r| <= |s|
    && r == s[i..i + |r|]
    && AllWhitespace(s[..i])
    && AllWhitespace(s[i + |r|..])
  }

  lemma WhitespaceCons(c: char, w: string)
    requires IsWhitespace(c) && AllWhitespace(w)
    ensures AllWhitespace([c] + w)
  {
    forall j | 0 <= j < |w| + 1 ensures IsWhitespace(([c] + w)[j]) {
      if j > 0 {
        assert ([c] + w)[j] == w[j - 1];
      }
    }
  }

  function TrimStart(s: string): (r: string)
    ensures |r| <= |s| && r == s[|s| - |r|..]
    ensures AllWhitespace(s[..|s| - |r|])
    ensures r == [] || !IsWhitespace(r[0])
  {
    if |s| > 0 && IsWhitespace(s[0]) then
      var t := s[1..];
      var r := TrimStart(t);
      var k := |t| - |r|;
      assert r == s[k + 1..] by { assert t[k..] == s[k + 1..]; }
      assert s[..k + 1] == [s[0]] + t[..k];
      WhitespaceCons(s[0], t[..k]);
      r
    else
      s
  }

  function TrimEnd(s: string): (r: string)
    ensures |r| <= |s| && r == s[..|r|]
    ensures AllWhitespace(s[|r|..])
    ensures r == [] || !IsWhitespace(r[|r| - 1])
  {
    if |s| > 0 && IsWhitespace(s[|s| - 1]) then
      var r := TrimEnd(s[..|s| - 1]);
      assert s[|r|..] == s[..|s| - 1][|r|..] + [s[|s| - 1]];
      r
    else
      s
  }

  /** `s.trim()`: the longest middle part of `s` whose ends are not whitespace. */
  function Trim(s: string): (r: string)
    ensures Trimmed(r)
    ensures StripsTo(s, |s| - |TrimStart(s)|, r)
  {
    var t := TrimStart(s);
    var r := TrimEnd(t);
    TrimParts(s, t, r);
    r
  }

  /** Cutting whitespace off the front of `s` (giving `t`) and then off the back of `t` (giving `r`) strips `s` to `r`. */
  lemma TrimParts(s: string, t: string, r: string)
    requires |t| <= |s| && t == s[|s| - |t|..] && AllWhitespace(s[..|s| - |t|])
    requires t == [] || !IsWhitespace(t[0])
    requires |r| <= |t| && r == t[..|r|] && AllWhitespace(t[|r|..])
    requires r == [] || !IsWhitespace(r[|r| - 1])
    ensures Trimmed(r)
    ensures StripsTo(s, |s| - |t|, r)
  {
    var i := |s| - |t|;
    assert r != [] ==> r[0] == t[0];
    assert r == s[i..i + |r|];
    assert s[i + |r|..] == t[|r|..];
  }

  /** Trimming a string whose ends are not whitespace leaves it as it is. */
  lemma TrimOfTrimmed(s: string)
    requires Trimmed(s)
    ensures Trim(s) == s
  {
  }

  // ---------------------------------------------------------------- toLowerCase

  /**
   * The simple lower-case mapping for Basic Latin, Latin-1 and the basic Cyrillic block:
   * A-Z, U+00C0-U+00DE (except U+00D7) and U+0410-U+042F move up by 0x20, U+0400-U+040F by 0x50.
   */
  function LowerChar(c: char): char {
    if 'A' <= c <= 'Z' || ('\U{C0}' <= c <= '\U{DE}' && c != '\U{D7}') || ('\U{410}' <= c <= '\U{42F}') then
      (c as int + 32) as char
    else if '\U{400}' <= c <= '\U{40F}' then
      (c as int + 80) as char
    else
      c
  }

  /** `s.toLowerCase()`, character by character. */
  function Lower(s: string): string {
    seq(|s|, i requires 0 <= i < |s| => LowerChar(s[i]))
  }

  /** Lower-casing a string that is already lower-case changes nothing. */
  lemma LowerIdempotent(s: string)
    ensures Lower(Lower(s)) == Lower(s)
  {
    forall i | 0 <= i < |s|
      ensures LowerChar(LowerChar(s[i])) == LowerChar(s[i])
    {
    }
  }

  lemma LowerTail(s: string)
    requires |s| > 0
    ensures Lower(s)[1..] == Lower(s[1..]) && Lower(s)[..|s| - 1] == Lower(s[..|s| - 1])
  {
  }

  /** Lower-casing maps whitespace to whitespace and nothing else to whitespace. */
  lemma LowerCharWhitespace(c: char)
    ensures IsWhitespace(LowerChar(c)) <==> IsWhitespace(c)
  {
  }

  /** Lower-casing neither creates nor removes whitespace, so it commutes with `trimStart`. */
  lemma {:induction false} LowerTrimStart(s: string)
    ensures TrimStart(Lower(s)) == Lower(TrimStart(s))
    decreases |s|
  {
    if |s| > 0 {
      LowerTail(s);
      LowerCharWhitespace(s[0]);
      if IsWhitespace(s[0]) {
        LowerTrimStart(s[1..]);
        TrimStartDrop(s);
        TrimStartDrop(Lower(s));
      } else {
        TrimStartKeep(s);
        TrimStartKeep(Lower(s));
      }
    }
  }

  lemma TrimStartDrop(s: string)
    requires |s| > 0 && IsWhitespace(s[0])
    ensures TrimStart(s) == TrimStart(s[1..])
  {
  }

  lemma TrimStartKeep(s: string)
    requires |s| > 0 && !IsWhitespace(s[0])
    ensures TrimStart(s) == s
  {
  }

  /** Lower-casing commutes with `trimEnd`. */
  lemma {:induction false} LowerTrimEnd(s: string)
    ensures TrimEnd(Lower(s)) == Lower(TrimEnd(s))
    decreases |s|
  {
    if |s| > 0 {
      var n := |s| - 1;
      LowerTail(s);
      LowerCharWhitespace(s[n]);
      if IsWhitespace(s[n]) {
        LowerTrimEnd(s[..n]);
        TrimEndDrop(s);
        TrimEndDrop(Lower(s));
      } else {
        TrimEndKeep(s);
        TrimEndKeep(Lower(s));
      }
    }
  }

  lemma TrimEndDrop(s: string)
    requires |s| > 0 && IsWhitespace(s[|s| - 1])
    ensures TrimEnd(s) == TrimEnd(s[..|s| - 1])
  {
  }

  lemma TrimEndKeep(s: string)
    requires |s| > 0 && !IsWhitespace(s[|s| - 1])
    ensures TrimEnd(s) == s
  {
  }

  /** `s.trim().toLowerCase() == s.toLowerCase().trim()`. */
  lemma LowerTrim(s: string)
    ensures Lower(Trim(s)) == Trim(Lower(s))
  {
    LowerTrimStart(s);
    LowerTrimEnd(TrimStart(s));
  }

  // ---------------------------------------------------------------- includes

  /** `needle` occurs in `hay` starting at index `k`. */
  predicate OccursAt(hay: string, needle: string, k: int) {
    0 <= k && k + |needle| <= |hay| && hay[k..k + |needle|] == needle
  }

  /** `hay.includes(needle)`. */
  predicate Includes(hay: string, needle: string)
    decreases |hay|
  {
    needle <= hay || (|hay| > 0 && Includes(hay[1..], needle))
  }

  /** An `includes` hit has an occurrence at some index, returned as the witness. */
  lemma {:induction false} IncludedOccurs(hay: string, needle: string) returns (k: int)
    requires Includes(hay, needle)
    ensures OccursAt(hay, needle, k)
    decreases |hay|
  {
    if needle <= hay {
      k := 0;
      assert hay[0..|needle|] == needle;
    } else {
      var j := IncludedOccurs(hay[1..], needle);
      assert hay[1..][j..j + |needle|] == hay[j + 1..j + 1 + |needle|];
      k := j + 1;
    }
  }

  /** An occurrence at any index is found by `includes`. */
  lemma {:induction false} OccurrenceIncluded(hay: string, needle: string, k: int)
    requires OccursAt(hay, needle, k)
    ensures Includes(hay, needle)
    decreases k
  {
    if k == 0 {
      assert hay[..|needle|] == needle;
      assert needle <= hay;
    } else {
      assert hay[1..][k - 1..k - 1 + |needle|] == hay[k..k + |needle|];
      OccurrenceIncluded(hay[1..], needle, k - 1);
    }
  }

  /** `includes` finds exactly the occurrences at some index. */
  lemma IncludesIffOccurs(hay: string, needle: string)
    ensures Includes(hay, needle) <==> exists k :: OccursAt(hay, needle, k)
  {
    if Includes(hay, needle) {
      var k := IncludedOccurs(hay, needle);
    }
    forall k | OccursAt(hay, needle, k)
      ensures Includes(hay, needle)
    {
      OccurrenceIncluded(hay, needle, k);
    }
  }

  /** Every string includes the empty string. */
  lemma IncludesEmpty(hay: string)
    ensures Includes(hay, "")
  {
  }

  // ---------------------------------------------------------------- split and join

  /** `parts.join(sep)`. */
  function Join(parts: seq<string>, sep: char): string
    decreases |parts|
  {
    if |parts| == 0 then "" else if |parts| == 1 then parts[0] else parts[0] + [sep] + Join(parts[1..], sep)
  }

  /** `s.split(sep)` for a one-character separator: never empty, pieces free of `sep`, joined back gives `s`. */
  function Split(s: string, sep: char): (r: seq<string>)
    ensures |r| >= 1
    ensures forall i :: 0 <= i < |r| ==> sep !in r[i]
    ensures Join(r, sep) == s
    decreases |s|
  {
    if |s| == 0 then
      [""]
    else
      var rest := Split(s[1..], sep);
      if s[0] == sep then
        assert [""] + rest == [""] + rest[..];
        [""] + rest
      else
        var r := [[s[0]] + rest[0]] + rest[1..];
        assert |rest| > 1 ==> Join(rest, sep) == rest[0] + [sep] + Join(rest[1..], sep);
        assert r[1..] == rest[1..];
        r
  }

  /** Splitting a join of separator-free pieces gives the pieces back. */
  lemma {:induction false} SplitJoin(parts: seq<string>, sep: char)
    requires |parts| >= 1
    requires forall i :: 0 <= i < |parts| ==> sep !in parts[i]
    ensures Split(Join(parts, sep), sep) == parts
    decreases |parts|, |parts[0]|
  {
    if |parts[0]| == 0 {
      if |parts| == 1 {
      } else {
        var s := Join(parts, sep);
        assert s == [sep] + Join(parts[1..], sep);
        assert s[1..] == Join(parts[1..], sep);
        SplitJoin(parts[1..], sep);
        assert parts == [""] + parts[1..];
      }
    } else {
      var s := Join(parts, sep);
      var c := parts[0][0];
      assert c != sep by { assert c in parts[0]; }
      var parts' := [parts[0][1..]] + parts[1..];
      forall i | 0 <= i < |parts'| ensures sep !in parts'[i] {
        if i == 0 {
          assert forall x :: x in parts[0][1..] ==> x in parts[0];
        } else {
          assert parts'[i] == parts[i];
        }
      }
      assert parts'[1..] == parts[1..];
      assert Join(parts', sep) == s[1..] by {
        if |parts| == 1 {
        } else {
          assert s == parts[0] + [sep] + Join(parts[1..], sep);
        }
      }
      SplitJoin(parts', sep);
      assert s[0] == c;
      assert parts[0] == [c] + parts'[0];
      assert parts == [[c] + parts'[0]] + parts'[1..];
    }
  }

  /** A string without the separator splits into itself alone. */
  lemma SplitWithoutSeparator(s: string, sep: char)
    requires sep !in s
    ensures Split(s, sep) == [s]
  {
    SplitJoin([s], sep);
  }
}
