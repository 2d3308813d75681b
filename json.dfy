/**
 * The JSON trees the router and the emitter work on. An object is an
 * ordered list of fields, as Jackson's ObjectNode keeps insertion order;
 * put/set replace the value of an existing key in place and append a new key.
 */
module Json {
  import opened Wrappers
  import opened Text

  /**
   * A tree Jackson builds never repeats a key inside one object (a parsed
   * duplicate overwrites the earlier value, put/set replace it): every
   * object's fields satisfy NoDupKeys, Put keeps it (PutShape), and under it
   * Lookup reads the one entry a key has (LookupUnique).
   */
  datatype Json =
    | JNull
    | JBool(b: bool)
    | JNum(n: int)
    | JStr(s: string)
    | JArr(elems: seq<Json>)
    | JObj(fields: seq<(string, Json)>)

  function Keys(fs: seq<(string, Json)>): set<string>
  {
    set i | 0 <= i < |fs| :: fs[i].0
  }

  lemma KeysCons(f: (string, Json), rest: seq<(string, Json)>)
    ensures Keys([f] + rest) == {f.0} + Keys(rest)
  {
    var fs := [f] + rest;
    forall k | k in Keys(fs) ensures k in {f.0} + Keys(rest) {
      var i :| 0 <= i < |fs| && fs[i].0 == k;
      if i > 0 { assert rest[i - 1] == fs[i]; }
    }
    forall k | k in Keys(rest) ensures k in Keys(fs) {
      var i :| 0 <= i < |rest| && rest[i].0 == k;
      assert fs[i + 1] == rest[i];
    }
    assert fs[0].0 == f.0;
  }

  lemma KeysHead(fs: seq<(string, Json)>)
    requires fs != []
    ensures Keys(fs) == {fs[0].0} + Keys(fs[1..])
  {
    KeysCons(fs[0], fs[1..]);
    assert fs == [fs[0]] + fs[1..];
  }

  predicate NoDupKeys(fs: seq<(string, Json)>)
  {
    forall i, j :: 0 <= i < j < |fs| ==> fs[i].0 != fs[j].0
  }

  /** The value stored under key k (JsonNode.get), or None when the key is missing. */
  function Lookup(fs: seq<(string, Json)>, k: string): (r: Option<Json>)
    ensures r.Some? <==> k in Keys(fs)
    ensures r.Some? ==> exists i :: 0 <= i < |fs| && fs[i] == (k, r.value)
  {
    if fs == [] then None
    else if fs[0].0 == k then Some(fs[0].1)
    else
      var r := Lookup(fs[1..], k);
      KeysCons(fs[0], fs[1..]);
      assert fs == [fs[0]] + fs[1..];
      assert r.Some? ==> exists i :: 0 <= i < |fs[1..]| && fs[1..][i] == (k, r.value);
      r
  }

  /** Without repeated keys, the value a key is stored with is the value Lookup returns for it. */
  lemma {:induction false} LookupUnique(fs: seq<(string, Json)>, i: int)
    requires NoDupKeys(fs) && 0 <= i < |fs|
    ensures Lookup(fs, fs[i].0) == Some(fs[i].1)
  {
    if i > 0 {
      NoDupTail(fs);
      assert fs[1..][i - 1] == fs[i];
      LookupUnique(fs[1..], i - 1);
    }
  }

  /** ObjectNode.put / ObjectNode.set: replace in place, or append at the end. */
  function Put(fs: seq<(string, Json)>, k: string, v: Json): (r: seq<(string, Json)>)
    ensures Keys(r) == Keys(fs) + {k}
    ensures k !in Keys(fs) ==> r == fs + [(k, v)]
    ensures k in Keys(fs) ==> |r| == |fs|
  {
    if fs == [] then
      KeysCons((k, v), []);
      assert Keys([]) == {};
      [(k, v)]
    else
      KeysCons(fs[0], fs[1..]);
      assert fs == [fs[0]] + fs[1..];
      if fs[0].0 == k then
        KeysCons((k, v), fs[1..]);
        [(k, v)] + fs[1..]
      else
        var rest := Put(fs[1..], k, v);
        KeysCons(fs[0], rest);
        [fs[0]] + rest
  }

  /** After a put, the key holds the new value and every other key is as before. */
  lemma {:induction false} PutLookup(fs: seq<(string, Json)>, k: string, v: Json, k': string)
    ensures Lookup(Put(fs, k, v), k) == Some(v)
    ensures k' != k ==> Lookup(Put(fs, k, v), k') == Lookup(fs, k')
  {
    if fs == [] {
      LookupCons((k, v), [], k);
      LookupCons((k, v), [], k');
    } else if fs[0].0 != k {
      PutLookup(fs[1..], k, v, k');
      var rest := Put(fs[1..], k, v);
      assert Put(fs, k, v) == [fs[0]] + rest;
      LookupCons(fs[0], rest, k);
      LookupCons(fs[0], rest, k');
    } else {
      assert Put(fs, k, v) == [(k, v)] + fs[1..];
      LookupCons((k, v), fs[1..], k);
      LookupCons((k, v), fs[1..], k');
    }
  }

  lemma LookupCons(f: (string, Json), rest: seq<(string, Json)>, k: string)
    ensures Lookup([f] + rest, k) == if f.0 == k then Some(f.1) else Lookup(rest, k)
  {
    assert ([f] + rest)[1..] == rest;
  }

  /** A put keeps the key order of the object and never duplicates a key. */
  lemma PutShape(fs: seq<(string, Json)>, k: string, v: Json)
    ensures k in Keys(fs) ==> forall i :: 0 <= i < |fs| ==> Put(fs, k, v)[i].0 == fs[i].0
    ensures NoDupKeys(fs) ==> NoDupKeys(Put(fs, k, v))
  {
    PutKeepsOrder(fs, k, v);
    PutNoDup(fs, k, v);
  }

  lemma {:induction false} PutKeepsOrder(fs: seq<(string, Json)>, k: string, v: Json)
    ensures k in Keys(fs) ==> forall i :: 0 <= i < |fs| ==> Put(fs, k, v)[i].0 == fs[i].0
  {
    if fs != [] && fs[0].0 != k && k in Keys(fs) {
      KeysCons(fs[0], fs[1..]);
      assert fs == [fs[0]] + fs[1..];
      PutKeepsOrder(fs[1..], k, v);
      var r := Put(fs, k, v);
      assert r == [fs[0]] + Put(fs[1..], k, v);
      forall i | 0 <= i < |fs| ensures r[i].0 == fs[i].0 {
        if i > 0 {
          assert r[i] == Put(fs[1..], k, v)[i - 1] && fs[i] == fs[1..][i - 1];
        }
      }
    }
  }

  lemma {:induction false} PutNoDup(fs: seq<(string, Json)>, k: string, v: Json)
    ensures NoDupKeys(fs) ==> NoDupKeys(Put(fs, k, v))
  {
    if fs == [] {
      NoDupCons((k, v), []);
    } else if NoDupKeys(fs) {
      NoDupTail(fs);
      if fs[0].0 != k {
        PutNoDup(fs[1..], k, v);
        assert Put(fs, k, v) == [fs[0]] + Put(fs[1..], k, v);
        NoDupCons(fs[0], Put(fs[1..], k, v));
      } else {
        assert Put(fs, k, v) == [(k, v)] + fs[1..];
        NoDupCons((k, v), fs[1..]);
      }
    }
  }

  lemma NoDupTail(fs: seq<(string, Json)>)
    requires fs != [] && NoDupKeys(fs)
    ensures NoDupKeys(fs[1..]) && fs[0].0 !in Keys(fs[1..])
  {
    forall i, j | 0 <= i < j < |fs[1..]| ensures fs[1..][i].0 != fs[1..][j].0 {
      assert fs[1..][i] == fs[i + 1] && fs[1..][j] == fs[j + 1];
    }
    forall j | 0 <= j < |fs[1..]| ensures fs[1..][j].0 != fs[0].0 {
      assert fs[1..][j] == fs[j + 1];
    }
  }

  lemma NoDupCons(f: (string, Json), rest: seq<(string, Json)>)
    requires NoDupKeys(rest) && f.0 !in Keys(rest)
    ensures NoDupKeys([f] + rest)
  {
    var r := [f] + rest;
    forall i, j | 0 <= i < j < |r| ensures r[i].0 != r[j].0 {
      assert r[j] == rest[j - 1];
      if i > 0 {
        assert r[i] == rest[i - 1];
      } else {
        assert rest[j - 1].0 in Keys(rest);
      }
    }
  }

  /** JsonNode.get(field): None for a missing key and for a node that is not an object. */
  function Get(v: Json, k: string): (r: Option<Json>)
    ensures r.Some? <==> v.JObj? && k in Keys(v.fields)
  {
    if v.JObj? then Lookup(v.fields, k) else None
  }

  function HexDigit(d: int): char
    requires 0 <= d < 16
  {
    "0123456789ABCDEF"[d]
  }

  /** How Jackson writes one character inside a JSON string. */
  function EscapeTextChar(c: char): string
  {
    if c == '"' then "\\\""
    else if c == '\\' then "\\\\"
    else if c == '\n' then "\\n"
    else if c == '\r' then "\\r"
    else if c == '\t' then "\\t"
    else if c == '\U{0008}' then "\\b"
    else if c == '\U{000C}' then "\\f"
    else if c < ' ' then "\\u00" + [HexDigit(c as int / 16), HexDigit(c as int % 16)]
    else [c]
  }

  function EscapeText(s: string): string
  {
    if s == [] then [] else EscapeTextChar(s[0]) + EscapeText(s[1..])
  }

  /** A string Jackson writes without any escape. */
  predicate IsPlain(s: string)
  {
    forall i :: 0 <= i < |s| ==> s[i] != '"' && s[i] != '\\' && s[i] >= ' '
  }

  lemma {:induction false} EscapePlain(s: string)
    requires IsPlain(s)
    ensures EscapeText(s) == s
  {
    if s != [] {
      assert IsPlain(s[1..]) by {
        forall i | 0 <= i < |s[1..]| ensures s[1..][i] != '"' && s[1..][i] != '\\' && s[1..][i] >= ' ' {
          assert s[1..][i] == s[i + 1];
        }
      }
      EscapePlain(s[1..]);
      assert EscapeTextChar(s[0]) == [s[0]];
      HeadTail(s);
    }
  }

  /** JsonNode.toString: Jackson's compact rendering of a tree. */
  function Render(v: Json): (r: string)
    ensures r != []
    ensures v.JStr? ==> |r| >= 2 && r[0] == '"' && r[|r| - 1] == '"'
    ensures v.JArr? ==> |r| >= 2 && r[0] == '[' && r[|r| - 1] == ']'
    ensures v.JObj? ==> |r| >= 2 && r[0] == '{' && r[|r| - 1] == '}'
  {
    match v
    case JNull => "null"
    case JBool(b) => if b then "true" else "false"
    case JNum(n) => IntText(n)
    case JStr(s) => "\"" + EscapeText(s) + "\""
    case JArr(xs) => "[" + RenderElems(xs) + "]"
    case JObj(fs) => "{" + RenderFields(fs) + "}"
  }

  function RenderElems(xs: seq<Json>): string
  {
    if xs == [] then ""
    else Render(xs[0]) + (if |xs| == 1 then "" else "," + RenderElems(xs[1..]))
  }

  function RenderFields(fs: seq<(string, Json)>): string
  {
    if fs == [] then ""
    else
      assert fs[0] in fs;
      assert fs[0].1 < fs[0];
      "\"" + EscapeText(fs[0].0) + "\":" + Render(fs[0].1)
      + (if |fs| == 1 then "" else "," + RenderFields(fs[1..]))
  }

  /** Only the boolean nodes render as the bare words true and false. */
  lemma RenderBool(v: Json)
    ensures Render(v) == "true" <==> v == JBool(true)
    ensures Render(v) == "false" <==> v == JBool(false)
  {
    match v
    case JNull =>
    case JBool(b) =>
    case JNum(n) =>
      assert Render(v)[0] != 't' && Render(v)[0] != 'f';
    case JStr(s) =>
      assert Render(v)[0] == '"';
    case JArr(xs) =>
      assert Render(v)[0] == '[';
    case JObj(fs) =>
      assert Render(v)[0] == '{';
  }

  // ----- sequence helpers -----
  // Single steps of sequence algebra (regrouping a concatenation, taking one
  // more element of a slice). Dafny proves each of them on its own; they are
  // stated apart and called where needed so that the proofs above do not
  // depend on the solver finding these steps inside a large context.

  lemma HeadTail(s: string)
    requires s != []
    ensures [s[0]] + s[1..] == s
  {
  }
}
