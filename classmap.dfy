/**
 * The classmap of `ClassFactory`: a PHP array from short class names to
 * fully qualified names.  Assigning to a key already present replaces the
 * value in place; a new key goes to the end.
 */
module Classmaps {
  import opened Wrappers
  import opened Php

  datatype Entry = Entry(key: string, value: string)

  /** The array in iteration order. */
  type Classmap = seq<Entry>

  function Keys(m: Classmap): (ks: seq<string>)
    ensures |ks| == |m|
    ensures forall i :: 0 <= i < |m| ==> ks[i] == m[i].key
  {
    if m == [] then [] else [m[0].key] + Keys(m[1..])
  }

  /** `$classmap[$key]`, `null` for a missing key. */
  function Lookup(m: Classmap, key: string): (v: Option<string>)
    ensures v.None? <==> key !in Keys(m)
    ensures v.Some? ==> exists i :: 0 <= i < |m| && m[i] == Entry(key, v.value)
  {
    if m == [] then None
    else if m[0].key == key then Some(m[0].value)
    else
      var v := Lookup(m[1..], key);
      assert v.Some? ==> exists i :: 0 <= i < |m| && m[i] == Entry(key, v.value) by {
        if v.Some? {
          var i :| 0 <= i < |m[1..]| && m[1..][i] == Entry(key, v.value);
          assert m[i + 1] == Entry(key, v.value);
        }
      }
      assert key in Keys(m) ==> key in Keys(m[1..]) by {
        if key in Keys(m) {
          var i :| 0 <= i < |m| && Keys(m)[i] == key;
          assert i > 0;
          assert Keys(m[1..])[i - 1] == key;
        }
      }
      v
  }

  /** No short name occurs twice. */
  predicate UniqueKeys(m: Classmap) {
    forall i, j :: 0 <= i < j < |Keys(m)| ==> Keys(m)[i] != Keys(m)[j]
  }

  /** `$classmap[$key] = $value` */
  function Put(m: Classmap, key: string, value: string): (r: Classmap)
    ensures key in Keys(m) ==> Keys(r) == Keys(m)
    ensures key !in Keys(m) ==> Keys(r) == Keys(m) + [key]
    ensures UniqueKeys(m) ==> UniqueKeys(r)
  {
    if m == [] then [Entry(key, value)]
    else if m[0].key == key then
      var r := [Entry(key, value)] + m[1..];
      assert Keys(r) == Keys(m);
      r
    else
      var rest := Put(m[1..], key, value);
      var r := [m[0]] + rest;
      assert Keys(m) == [m[0].key] + Keys(m[1..]);
      assert Keys(r) == [m[0].key] + Keys(rest);
      assert key in Keys(m) <==> key in Keys(m[1..]);
      r
  }

  /** After a put the key reads the new value. */
  lemma {:induction false} LookupPut(m: Classmap, key: string, value: string)
    ensures Lookup(Put(m, key, value), key) == Some(value)
  {
    if m != [] && m[0].key != key {
      LookupPut(m[1..], key, value);
      var p := Put(m, key, value);
      assert p == [m[0]] + Put(m[1..], key, value);
      assert p[0] == m[0] && p[1..] == Put(m[1..], key, value);
    }
  }

  /** A put leaves every other key reading what it read before. */
  lemma {:induction false} LookupPutOther(m: Classmap, key: string, value: string, other: string)
    requires other != key
    ensures Lookup(Put(m, key, value), other) == Lookup(m, other)
  {
    if m != [] && m[0].key != key {
      LookupPutOther(m[1..], key, value, other);
      var p := Put(m, key, value);
      assert p == [m[0]] + Put(m[1..], key, value);
      assert p[0] == m[0] && p[1..] == Put(m[1..], key, value);
    } else if m != [] {
      var p := Put(m, key, value);
      assert p[0] == Entry(key, value) && p[1..] == m[1..];
    }
  }

  lemma ConsSnoc(a: Entry, s: Classmap, e: Entry)
    ensures [a] + (s + [e]) == ([a] + s) + [e]
  {
  }

  /** A new short name goes to the end. */
  lemma {:induction false} PutAppendsNewKey(m: Classmap, key: string, value: string)
    requires key !in Keys(m)
    ensures Put(m, key, value) == m + [Entry(key, value)]
  {
    if m != [] {
      assert m[0].key != key by {
        assert Keys(m)[0] == m[0].key;
      }
      assert key !in Keys(m[1..]) by {
        assert forall i :: 0 <= i < |m[1..]| ==> Keys(m[1..])[i] == Keys(m)[i + 1];
      }
      PutAppendsNewKey(m[1..], key, value);
      var rest := Put(m[1..], key, value);
      assert Put(m, key, value) == [m[0]] + rest;
      ConsSnoc(m[0], m[1..], Entry(key, value));
      assert m == [m[0]] + m[1..];
    }
  }

  /** A second registration of the same short name replaces the first one where it stood. */
  lemma {:induction false} PutTwice(m: Classmap, key: string, v1: string, v2: string)
    ensures Put(Put(m, key, v1), key, v2) == Put(m, key, v2)
  {
    if m != [] && m[0].key != key {
      PutTwice(m[1..], key, v1, v2);
      var p := Put(m, key, v1);
      assert p == [m[0]] + Put(m[1..], key, v1);
      assert p[0] == m[0] && p[1..] == Put(m[1..], key, v1);
    } else if m != [] {
      var p := Put(m, key, v1);
      assert p[1..] == m[1..];
    }
  }

  /** The text of the classmap line of one entry: `key = value`. */
  function IniText(e: Entry): (t: string)
    ensures '\n' !in e.key && '\n' !in e.value ==> '\n' !in t
  {
    var t := e.key + " = " + e.value;
    assert '\n' !in e.key && '\n' !in e.value ==> '\n' !in t by {
      if '\n' !in e.key && '\n' !in e.value {
        forall j | 0 <= j < |t| ensures t[j] != '\n' {
          if j < |e.key| {
            assert t[j] == e.key[j];
          } else if j >= |e.key| + 3 {
            assert t[j] == e.value[j - |e.key| - 3];
          }
        }
      }
    }
    t
  }

  /** The texts of the lines, in array order. */
  function IniTexts(m: Classmap): (ts: seq<string>)
    ensures |ts| == |m|
    ensures forall i :: 0 <= i < |m| ==> ts[i] == IniText(m[i])
  {
    if m == [] then [] else [IniText(m[0])] + IniTexts(m[1..])
  }

  lemma IniTextsAppend(m: Classmap, e: Entry)
    ensures IniTexts(m + [e]) == IniTexts(m) + [IniText(e)]
  {
  }

  /** The content of `classmap.ini`: one line per entry, in array order. */
  function IniContent(m: Classmap): string {
    Unlines(IniTexts(m))
  }

  /** Without line feeds in the names the file splits into exactly one line per entry, then the empty tail. */
  lemma IniContentLines(m: Classmap)
    requires forall i :: 0 <= i < |m| ==> '\n' !in m[i].key && '\n' !in m[i].value
    ensures Explode('\n', IniContent(m)) == IniTexts(m) + [""]
  {
    ExplodeUnlines(IniTexts(m));
  }
}
