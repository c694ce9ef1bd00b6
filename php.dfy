/**
 * The few PHP string primitives the generator relies on, over strings of
 * characters that stand for the bytes of a PHP string.  Case mapping and
 * character classes are those of the default "C" locale (ASCII).
 */
module Php {
  import opened Wrappers

  /** `AbstractGenerator::LINE_FEED` of Zend\Code. */
  const LINE_FEED: string := "\n"

  /** `(bool) $s` for a string: only `''` and `'0'` are false. */
  predicate Truthy(s: string) {
    s != "" && s != "0"
  }

  /** `(bool) $x` for a string that may be null. */
  predicate TruthyOpt(x: Option<string>) {
    x.Some? && Truthy(x.value)
  }

  /** `(string) $x`: null becomes the empty string. */
  function NullText(x: Option<string>): string {
    if x.Some? then x.value else ""
  }

  /** The PCRE class `\s` without the `u` modifier. */
  predicate IsPcreSpace(c: char) {
    c == ' ' || c == '\t' || c == '\n' || c == '\U{B}' || c == '\U{C}' || c == '\r'
  }

  predicate IsAsciiUpper(c: char) { 'A' <= c <= 'Z' }
  predicate IsAsciiLower(c: char) { 'a' <= c <= 'z' }
  predicate IsAsciiLetter(c: char) { IsAsciiUpper(c) || IsAsciiLower(c) }
  predicate IsAsciiDigit(c: char) { '0' <= c <= '9' }

  /** The PCRE class `\w` without the `u` modifier. */
  predicate IsWordChar(c: char) {
    IsAsciiLetter(c) || IsAsciiDigit(c) || c == '_'
  }

  predicate AllWordChars(s: string) {
    forall i :: 0 <= i < |s| ==> IsWordChar(s[i])
  }

  function LowerChar(c: char): (d: char)
    ensures IsAsciiUpper(c) ==> IsAsciiLower(d)
    ensures !IsAsciiUpper(c) ==> d == c
  {
    if IsAsciiUpper(c) then (c as int + 32) as char else c
  }

  function UpperChar(c: char): (d: char)
    ensures IsAsciiLower(c) ==> IsAsciiUpper(d)
    ensures !IsAsciiLower(c) ==> d == c
  {
    if IsAsciiLower(c) then (c as int - 32) as char else c
  }

  /** `strtolower` */
  function ToLower(s: string): (r: string)
    ensures |r| == |s|
    ensures forall i :: 0 <= i < |s| ==> r[i] == LowerChar(s[i])
  {
    seq(|s|, i requires 0 <= i < |s| => LowerChar(s[i]))
  }

  /** Concatenation is associative (stated on its own to keep the proofs that need it small). */
  lemma AppendAssoc(a: string, b: string, c: string)
    ensures a + (b + c) == (a + b) + c
  {
  }

  lemma ToLowerConcat(a: string, b: string)
    ensures ToLower(a + b) == ToLower(a) + ToLower(b)
  {
  }

  /** `strtolower(ucfirst($s))` is `strtolower($s)`. */
  lemma ToLowerUcFirst(s: string)
    ensures ToLower(UcFirst(s)) == ToLower(s)
  {
    if s != "" {
      assert ToLower(UcFirst(s))[0] == LowerChar(UpperChar(s[0])) == LowerChar(s[0]);
      assert forall i :: 1 <= i < |s| ==> UcFirst(s)[i] == s[i];
    }
  }

  /** `ucfirst` */
  function UcFirst(s: string): (r: string)
    ensures |r| == |s|
    ensures s != "" ==> r[0] == UpperChar(s[0]) && r[1..] == s[1..]
  {
    if s == "" then "" else [UpperChar(s[0])] + s[1..]
  }

  /** `str_replace` of one character by another, as `str_ireplace('\\', DIRECTORY_SEPARATOR, $s)` is used. */
  function ReplaceChar(s: string, from: char, to: char): (r: string)
    ensures |r| == |s|
    ensures forall i :: 0 <= i < |s| ==> r[i] == (if s[i] == from then to else s[i])
  {
    seq(|s|, i requires 0 <= i < |s| => if s[i] == from then to else s[i])
  }

  /** `implode($glue, $parts)` */
  function Implode(glue: string, parts: seq<string>): string
  {
    if |parts| == 0 then ""
    else if |parts| == 1 then parts[0]
    else parts[0] + glue + Implode(glue, parts[1..])
  }

  /** `explode($d, $s)` for a one-character delimiter: never an empty list. */
  function Explode(d: char, s: string): (parts: seq<string>)
    ensures |parts| >= 1
  {
    if s == [] then [""]
    else
      var rest := Explode(d, s[1..]);
      if s[0] == d then [""] + rest
      else [[s[0]] + rest[0]] + rest[1..]
  }

  /** No piece of `explode` holds the delimiter. */
  lemma {:induction false} ExplodePartsLackDelimiter(d: char, s: string)
    ensures forall i :: 0 <= i < |Explode(d, s)| ==> d !in Explode(d, s)[i]
  {
    if s != [] {
      ExplodePartsLackDelimiter(d, s[1..]);
    }
  }

  /** `array_reverse` */
  function Reverse<T>(s: seq<T>): (r: seq<T>)
    ensures |r| == |s|
    ensures forall i :: 0 <= i < |s| ==> r[i] == s[|s| - 1 - i]
  {
    if s == [] then [] else Reverse(s[1..]) + [s[0]]
  }

  lemma {:induction false} ImplodeCons(glue: string, a: string, parts: seq<string>)
    requires |parts| >= 1
    ensures Implode(glue, [a + parts[0]] + parts[1..]) == a + Implode(glue, parts)
  {
    var ps := [a + parts[0]] + parts[1..];
    if |parts| == 1 {
    } else {
      assert ps[1..] == parts[1..];
    }
  }

  /** Joining the pieces of `explode` with the delimiter gives back the string. */
  lemma {:induction false} ImplodeExplode(d: char, s: string)
    ensures Implode([d], Explode(d, s)) == s
  {
    if s != [] {
      var rest := Explode(d, s[1..]);
      ImplodeExplode(d, s[1..]);
      if s[0] == d {
        assert ([""] + rest)[1..] == rest;
        assert s == [d] + s[1..];
      } else {
        ImplodeCons([d], [s[0]], rest);
        assert s == [s[0]] + s[1..];
      }
    }
  }

  lemma {:induction false} ExplodeAfterWord(d: char, a: string, s: string)
    requires d !in a
    ensures Explode(d, a + s) == [a + Explode(d, s)[0]] + Explode(d, s)[1..]
  {
    var e := Explode(d, s);
    if a == [] {
      assert a + s == s && a + e[0] == e[0];
      assert [e[0]] + e[1..] == e;
    } else {
      ExplodeAfterWord(d, a[1..], s);
      assert (a + s)[0] == a[0] && (a + s)[1..] == a[1..] + s;
      var rest := Explode(d, a[1..] + s);
      assert rest == [a[1..] + e[0]] + e[1..];
      assert rest[0] == a[1..] + e[0] && rest[1..] == e[1..];
      assert [a[0]] + (a[1..] + e[0]) == a + e[0];
    }
  }

  /** Splitting a join of delimiter-free pieces gives back the pieces. */
  lemma {:induction false} ExplodeImplode(d: char, parts: seq<string>)
    requires |parts| >= 1
    requires forall i :: 0 <= i < |parts| ==> d !in parts[i]
    ensures Explode(d, Implode([d], parts)) == parts
  {
    if |parts| == 1 {
      ExplodeAfterWord(d, parts[0], "");
      assert parts[0] + "" == parts[0];
    } else {
      var tail := Implode([d], parts[1..]);
      ExplodeImplode(d, parts[1..]);
      assert Implode([d], parts) == parts[0] + ([d] + tail);
      ExplodeAfterWord(d, parts[0], [d] + tail);
      assert ([d] + tail)[0] == d && ([d] + tail)[1..] == tail;
      var e := Explode(d, [d] + tail);
      assert e == [""] + parts[1..];
      assert e[0] == "" && e[1..] == parts[1..];
      assert parts[0] + "" == parts[0];
      assert [parts[0]] + parts[1..] == parts;
    }
  }

  /** The pieces of `explode` are pieces of the input: a character absent from it is absent from them. */
  lemma {:induction false} ExplodePartsAvoid(d: char, s: string, c: char)
    requires c !in s
    ensures forall i :: 0 <= i < |Explode(d, s)| ==> c !in Explode(d, s)[i]
  {
    if s != [] {
      assert c !in s[1..] by {
        assert forall j :: 0 <= j < |s[1..]| ==> s[1..][j] == s[j + 1];
      }
      ExplodePartsAvoid(d, s[1..], c);
    }
  }

  /** A string without the delimiter is one piece. */
  lemma ExplodeWord(d: char, a: string)
    requires d !in a
    ensures Explode(d, a) == [a]
  {
    ExplodeAfterWord(d, a, "");
    assert a + "" == a;
  }

  /** A delimiter-free word and a delimiter in front of a string add one piece. */
  lemma ExplodeJoin(d: char, a: string, rest: string)
    requires d !in a
    ensures Explode(d, a + [d] + rest) == [a] + Explode(d, rest)
  {
    ExplodeAfterWord(d, a, [d] + rest);
    assert a + [d] + rest == a + ([d] + rest);
    assert ([d] + rest)[1..] == rest;
    var e := Explode(d, [d] + rest);
    assert e == [""] + Explode(d, rest);
    assert a + e[0] == a;
  }

  /** Three delimiter-free words joined by the delimiter. */
  lemma {:induction false} ExplodeThree(d: char, a: string, b: string, c: string)
    requires d !in a && d !in b && d !in c
    ensures Explode(d, a + [d] + b + [d] + c) == [a, b, c]
  {
    ExplodeWord(d, c);
    ExplodeJoin(d, b, c);
    ExplodeJoin(d, a, b + [d] + c);
    assert a + [d] + b + [d] + c == a + [d] + (b + [d] + c);
  }

  /** Two delimiter-free words joined by the delimiter. */
  lemma {:induction false} ExplodeTwo(d: char, a: string, b: string)
    requires d !in a && d !in b
    ensures Explode(d, a + [d] + b) == [a, b]
  {
    ExplodeWord(d, b);
    ExplodeJoin(d, a, b);
  }

  /** One leading character: a delimiter opens a new piece, any other extends the first one. */
  lemma ExplodeCons(d: char, c: char, s: string)
    ensures Explode(d, [c] + s) ==
            if c == d then [""] + Explode(d, s)
            else [[c] + Explode(d, s)[0]] + Explode(d, s)[1..]
  {
    assert ([c] + s)[0] == c && ([c] + s)[1..] == s;
  }

  /** Putting a new first piece in front of a concatenation of pieces. */
  lemma GluePieces(h: string, r: seq<string>, et: seq<string>, ey: seq<string>)
    requires |et| >= 1 && r == et + ey
    ensures [h] + r[1..] == ([h] + et[1..]) + ey
    ensures [h] + r == ([h] + et) + ey
  {
    assert r[1..] == et[1..] + ey;
  }

  /** A leading character in front of a split string goes to the first piece of each side. */
  lemma ConcatAfterChar(d: char, c: char, t: string, w: string, y: string)
    requires Explode(d, w) == Explode(d, t) + Explode(d, y)
    ensures Explode(d, [c] + w) == Explode(d, [c] + t) + Explode(d, y)
  {
    var et := Explode(d, t);
    ExplodeCons(d, c, w);
    ExplodeCons(d, c, t);
    if c == d {
      GluePieces("", Explode(d, w), et, Explode(d, y));
    } else {
      GluePieces([c] + et[0], Explode(d, w), et, Explode(d, y));
    }
  }

  /** Splitting at a delimiter between two strings splits each of them. */
  lemma {:induction false} ExplodeConcat(d: char, x: string, y: string)
    ensures Explode(d, x + [d] + y) == Explode(d, x) + Explode(d, y)
  {
    if x == [] {
      assert x + [d] + y == [d] + y;
      ExplodeCons(d, d, y);
    } else {
      var t := x[1..];
      ExplodeConcat(d, t, y);
      assert x == [x[0]] + t;
      assert x + [d] + y == [x[0]] + (t + [d] + y);
      ConcatAfterChar(d, x[0], t, t + [d] + y, y);
    }
  }

  /** Replacing one delimiter by another that the string lacks splits it the same way. */
  lemma {:induction false} ExplodeReplaceChar(s: string, from: char, to: char)
    requires to !in s
    ensures Explode(to, ReplaceChar(s, from, to)) == Explode(from, s)
  {
    if s != [] {
      assert to !in s[1..] by {
        assert forall j :: 0 <= j < |s[1..]| ==> s[1..][j] == s[j + 1];
      }
      ExplodeReplaceChar(s[1..], from, to);
      assert ReplaceChar(s, from, to)[1..] == ReplaceChar(s[1..], from, to);
      assert s[0] != to;
    }
  }
  /** Each text followed by a line feed, as a file is written line by line. */
  function Unlines(ts: seq<string>): string {
    if ts == [] then "" else ts[0] + LINE_FEED + Unlines(ts[1..])
  }

  lemma {:induction false} UnlinesAppend(ts: seq<string>, t: string)
    ensures Unlines(ts + [t]) == Unlines(ts) + t + LINE_FEED
  {
    if ts == [] {
      assert [t][1..] == [];
    } else {
      UnlinesAppend(ts[1..], t);
      assert (ts + [t])[1..] == ts[1..] + [t];
    }
  }

  /** Splitting the lines back at the line feeds gives the texts and the empty piece after the last line feed. */
  lemma {:induction false} ExplodeUnlines(ts: seq<string>)
    requires forall i :: 0 <= i < |ts| ==> '\n' !in ts[i]
    ensures Explode('\n', Unlines(ts)) == ts + [""]
  {
    if ts != [] {
      ExplodeUnlines(ts[1..]);
      assert Unlines(ts) == ts[0] + ['\n'] + Unlines(ts[1..]);
      ExplodeConcat('\n', ts[0], Unlines(ts[1..]));
      ExplodeWord('\n', ts[0]);
      assert ts == [ts[0]] + ts[1..];
    }
  }
}
