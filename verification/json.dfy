/** JSON values as the client sees them, with the JavaScript operations the
    client applies to them: property lookup, truthiness, `String(v)` and
    `JSON.stringify`. Parsing is not defined here: callers receive it as a
    parameter. */
module Json {
  import opened Wrappers
  import Text

  /** A JSON value. Numbers are integral; object members keep their order. */
  datatype Json =
    | JNull
    | JBool(b: bool)
    | JNum(n: int)
    | JStr(s: string)
    | JArr(items: seq<Json>)
    | JObj(fields: seq<(string, Json)>)

  predicate HasKey(fields: seq<(string, Json)>, key: string) {
    exists i :: 0 <= i < |fields| && fields[i].0 == key
  }

  /** The value of the last member named `key`: duplicates resolve as `JSON.parse` resolves them. */
  function Lookup(fields: seq<(string, Json)>, key: string): (r: Option<Json>)
    ensures r.Some? <==> HasKey(fields, key)
    ensures r.Some? ==> exists i :: 0 <= i < |fields| && fields[i] == (key, r.value)
  {
    if |fields| == 0 then None
    else if fields[|fields| - 1].0 == key then Some(fields[|fields| - 1].1)
    else
      var r := Lookup(fields[..|fields| - 1], key);
      assert HasKey(fields[..|fields| - 1], key) ==> HasKey(fields, key);
      r
  }

  /** In an object whose member names are distinct, each member is found under its own name. */
  lemma {:induction false} LookupUnique(fields: seq<(string, Json)>, i: int)
    requires 0 <= i < |fields|
    requires forall j :: 0 <= j < |fields| && j != i ==> fields[j].0 != fields[i].0
    ensures Lookup(fields, fields[i].0) == Some(fields[i].1)
  {
    if i != |fields| - 1 {
      var init := fields[..|fields| - 1];
      assert forall j :: 0 <= j < |init| && j != i ==> init[j].0 != init[i].0 by {
        forall j | 0 <= j < |init| && j != i
          ensures init[j].0 != init[i].0
        {
          assert init[j] == fields[j] && init[i] == fields[i];
        }
      }
      LookupUnique(init, i);
    }
  }

  /** A member absent from the tail leaves the lookup to the head. */
  lemma {:induction false} LookupAppendAbsent(a: seq<(string, Json)>, b: seq<(string, Json)>, key: string)
    requires !HasKey(b, key)
    ensures Lookup(a + b, key) == Lookup(a, key)
  {
    if |b| > 0 {
      var ab := a + b;
      assert ab[|ab| - 1] == b[|b| - 1];
      assert ab[..|ab| - 1] == a + b[..|b| - 1];
      LookupAppendAbsent(a, b[..|b| - 1], key);
    } else {
      assert a + b == a;
    }
  }

  /** A member absent from the head leaves the lookup to the tail. */
  lemma {:induction false} LookupPrependAbsent(a: seq<(string, Json)>, b: seq<(string, Json)>, key: string)
    requires !HasKey(a, key)
    ensures Lookup(a + b, key) == Lookup(b, key)
  {
    if |b| > 0 {
      var ab := a + b;
      assert ab[|ab| - 1] == b[|b| - 1];
      assert ab[..|ab| - 1] == a + b[..|b| - 1];
      LookupPrependAbsent(a, b[..|b| - 1], key);
    } else {
      assert a + b == a;
    }
  }

  /** No two names are the same. */
  predicate Distinct(names: seq<string>) {
    forall i, j :: 0 <= i < j < |names| ==> names[i] != names[j]
  }

  /** The members an object literal contributes, in order: `names[i]` with `values[i]`,
      and nothing for a value that is `undefined`, which `JSON.stringify` drops. */
  function Members(names: seq<string>, values: seq<Option<Json>>): (r: seq<(string, Json)>)
    requires |names| == |values|
    ensures |r| <= |names|
  {
    if |names| == 0 then []
    else (if values[0].Some? then [(names[0], values[0].value)] else []) + Members(names[1..], values[1..])
  }

  /** Every member of the object is one of the literal's names. */
  lemma {:induction false} MembersNamed(names: seq<string>, values: seq<Option<Json>>, key: string)
    requires |names| == |values| && HasKey(Members(names, values), key)
    ensures key in names
  {
    var head := if values[0].Some? then [(names[0], values[0].value)] else [];
    var rest := Members(names[1..], values[1..]);
    var r := head + rest;
    var i :| 0 <= i < |r| && r[i].0 == key;
    if i >= |head| {
      assert rest[i - |head|] == r[i];
      MembersNamed(names[1..], values[1..], key);
      assert key in names[1..];
    }
  }

  /** With distinct names, each name finds its own value, and an `undefined` value is no member at all. */
  lemma {:induction false} MembersLookup(names: seq<string>, values: seq<Option<Json>>, i: int)
    requires |names| == |values| && Distinct(names) && 0 <= i < |names|
    ensures Lookup(Members(names, values), names[i]) == values[i]
  {
    var head := if values[0].Some? then [(names[0], values[0].value)] else [];
    var rest := Members(names[1..], values[1..]);
    assert Members(names, values) == head + rest;
    assert Distinct(names[1..]) by {
      forall a, b | 0 <= a < b < |names| - 1
        ensures names[1..][a] != names[1..][b]
      {
        assert names[1..][a] == names[a + 1] && names[1..][b] == names[b + 1];
      }
    }
    if i == 0 {
      assert names[0] !in names[1..] by {
        forall k | 0 <= k < |names| - 1
          ensures names[1..][k] != names[0]
        {
          assert names[1..][k] == names[k + 1];
        }
      }
      if HasKey(rest, names[0]) {
        MembersNamed(names[1..], values[1..], names[0]);
      }
      LookupAppendAbsent(head, rest, names[0]);
      if values[0].Some? {
        assert head[..0] == [];
      }
    } else {
      assert names[i] == names[1..][i - 1];
      MembersLookup(names[1..], values[1..], i - 1);
      LookupPrependAbsent(head, rest, names[i]);
    }
  }

  /** An object none of whose members is named outside `names`. */
  ghost predicate NamesOnly(v: Json, names: seq<string>) {
    v.JObj? && forall k :: HasKey(v.fields, k) ==> k in names
  }

  /** An object literal has no member beyond the names it lists. */
  lemma MembersNamesOnly(names: seq<string>, values: seq<Option<Json>>)
    requires |names| == |values|
    ensures NamesOnly(JObj(Members(names, values)), names)
  {
    forall k | HasKey(Members(names, values), k)
      ensures k in names
    {
      MembersNamed(names, values, k);
    }
  }

  /** `v[key]` (or `v?.[key]`): a member of an object; any other value has no such property. */
  function Get(v: Json, key: string): (r: Option<Json>)
    ensures r.Some? <==> v.JObj? && HasKey(v.fields, key)
  {
    match v
    case JObj(fields) => Lookup(fields, key)
    case _ => None
  }

  /** A string-valued member of an object: `typeof v[name] === "string"`. */
  function StringProp(v: Json, name: string): (r: Option<string>)
    ensures r.Some? <==> Get(v, name).Some? && Get(v, name).value.JStr?
    ensures r.Some? ==> Get(v, name) == Some(JStr(r.value))
  {
    var g := Get(v, name);
    if g.Some? && g.value.JStr? then Some(g.value.s) else None
  }

  /** JavaScript truthiness of a JSON value. */
  predicate Truthy(v: Json) {
    match v
    case JNull => false
    case JBool(b) => b
    case JNum(n) => n != 0
    case JStr(s) => s != ""
    case JArr(_) => true
    case JObj(_) => true
  }

  /** Truthiness of a property that may be missing (`undefined` is falsy). */
  predicate TruthyOpt(o: Option<Json>) {
    o.Some? && Truthy(o.value)
  }

  /** `String(v)`, which is also what a template literal `${v}` produces. */
  function JsString(v: Json): (r: string)
    ensures v.JStr? ==> r == v.s
    ensures v.JObj? ==> r == "[object Object]"
    ensures v.JNull? ==> r == "null"
    ensures Truthy(v) && !v.JArr? ==> r != ""
  {
    match v
    case JNull => "null"
    case JBool(b) => if b then "true" else "false"
    case JNum(n) => Text.IntToString(n)
    case JStr(s) => s
    case JArr(items) => ArrayText(items)
    case JObj(_) => "[object Object]"
  }

  /** `Array.prototype.join(",")` over element strings; `null` elements render as "". */
  function ArrayText(items: seq<Json>): string
  {
    if |items| == 0 then ""
    else
      var head := if items[0].JNull? then "" else JsString(items[0]);
      if |items| == 1 then head else head + "," + ArrayText(items[1..])
  }

  /** `${v}` for a property that may be `undefined`. */
  function PropText(o: Option<Json>): (r: string)
    ensures o.None? ==> r == "undefined"
    ensures o.Some? ==> r == JsString(o.value)
  {
    match o
    case None => "undefined"
    case Some(v) => JsString(v)
  }

  function HexDigit(d: int): char
    requires 0 <= d < 16
  {
    "0123456789abcdef"[d]
  }

  /** How `JSON.stringify` writes one character inside a string literal. */
  function EscapeChar(c: char): (r: string)
    ensures |r| >= 1
    ensures r == [c] <==> (c != '"' && c != '\\' && c as int >= 0x20)
  {
    if c == '"' then "\\\""
    else if c == '\\' then "\\\\"
    else if c == '\n' then "\\n"
    else if c == '\r' then "\\r"
    else if c == '\t' then "\\t"
    else if c as int == 0x08 then "\\b"
    else if c as int == 0x0C then "\\f"
    else if c as int < 0x20 then "\\u00" + [HexDigit(c as int / 16), HexDigit(c as int % 16)]
    else [c]
  }

  function EscapeText(s: string): string {
    if |s| == 0 then "" else EscapeChar(s[0]) + EscapeText(s[1..])
  }

  /** A JSON string literal. */
  function Quote(s: string): (r: string)
    ensures |r| >= 2 && r[0] == '"' && r[|r| - 1] == '"'
  {
    "\"" + EscapeText(s) + "\""
  }

  /** `JSON.stringify(v)`. Its first character tells the kind of value. */
  function Serialize(v: Json): (r: string)
    ensures |r| >= 1
    ensures v.JObj? <==> r[0] == '{'
    ensures v.JArr? <==> r[0] == '['
    ensures v.JStr? <==> r[0] == '"'
  {
    match v
    case JNull => "null"
    case JBool(b) => if b then "true" else "false"
    case JNum(n) => Text.IntToString(n)
    case JStr(s) => Quote(s)
    case JArr(items) =>
      "[" + Text.Join(seq(|items|, i requires 0 <= i < |items| => Serialize(items[i])), ',') + "]"
    case JObj(fields) =>
      var members := seq(|fields|, i requires 0 <= i < |fields| => Quote(fields[i].0) + ":" + Serialize(fields[i].1));
      "{" + Text.Join(members, ',') + "}"
  }

  /** A JSON array of strings. */
  function Strings(xs: seq<string>): (r: Json)
    ensures r.JArr? && |r.items| == |xs|
    ensures forall i :: 0 <= i < |xs| ==> r.items[i] == JStr(xs[i])
  {
    JArr(seq(|xs|, i requires 0 <= i < |xs| => JStr(xs[i])))
  }
}
