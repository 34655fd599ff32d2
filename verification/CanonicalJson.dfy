/** The canonical text that a Vita request signature covers.

    JSON values keep their entries in insertion order, as JavaScript objects do; numbers carry the
    text `String(n)` gives for them. */
module CanonicalJson {
  import opened KeyOrder

  datatype Json =
    | Undefined
    | Null
    | Bool(b: bool)
    | Num(text: string)
    | Str(s: string)
    | Arr(items: seq<Json>)
    | Obj(entries: seq<Entry>)

  datatype Entry = Entry(key: string, val: Json)

  // ── deepClean ─────────────────────────────────────────────────────────────

  function DeepClean(v: Json): Json
    decreases v
  {
    match v
    case Undefined => Undefined
    case Null => Undefined
    case Arr(items) => Arr(CleanItems(items))
    case Obj(entries) => Obj(CleanEntries(entries))
    case _ => v
  }

  function CleanItems(items: seq<Json>): seq<Json>
    decreases items
  {
    if items == [] then []
    else
      var c := DeepClean(items[|items| - 1]);
      CleanItems(items[..|items| - 1]) + if c == Undefined then [] else [c]
  }

  function CleanEntries(entries: seq<Entry>): seq<Entry>
    decreases entries
  {
    if entries == [] then []
    else
      var e := entries[|entries| - 1];
      var c := DeepClean(e.val);
      CleanEntries(entries[..|entries| - 1]) + if c == Undefined then [] else [Entry(e.key, c)]
  }

  /** The recursion as it is written: arrays by map and filter, objects by filling `out`. */
  method Clean(v: Json) returns (r: Json)
    ensures r == DeepClean(v)
    decreases v
  {
    match v {
      case Undefined => return Undefined;
      case Null => return Undefined;
      case Arr(items) =>
        var out := [];
        for i := 0 to |items|
          invariant out == CleanItems(items[..i])
        {
          var c := Clean(items[i]);
          assert items[..i + 1][..i] == items[..i];
          if c != Undefined { out := out + [c]; }
        }
        assert items[..|items|] == items;
        return Arr(out);
      case Obj(entries) =>
        var out := [];
        for i := 0 to |entries|
          invariant out == CleanEntries(entries[..i])
        {
          var c := Clean(entries[i].val);
          assert entries[..i + 1][..i] == entries[..i];
          if c != Undefined { out := out + [Entry(entries[i].key, c)]; }
        }
        assert entries[..|entries|] == entries;
        return Obj(out);
      case _ => return v;
    }
  }

  // ── stableStringify and buildSortedBody ───────────────────────────────────

  const HEX_DIGITS := "0123456789abcdef"

  function QuoteChar(c: char): string {
    if c == '"' then "\\\""
    else if c == '\\' then "\\\\"
    else if c == '\U{8}' then "\\b"
    else if c == '\U{C}' then "\\f"
    else if c == '\n' then "\\n"
    else if c == '\r' then "\\r"
    else if c == '\t' then "\\t"
    else if c < ' ' then "\\u00" + [HEX_DIGITS[(c as int / 16) % 16], HEX_DIGITS[c as int % 16]]
    else [c]
  }

  function QuoteChars(s: string): string {
    if s == "" then "" else QuoteChars(s[..|s| - 1]) + QuoteChar(s[|s| - 1])
  }

  /** `JSON.stringify` of a scalar. */
  function Scalar(v: Json): string {
    match v
    case Bool(b) => if b then "true" else "false"
    case Num(text) => text
    case Str(s) => "\"" + QuoteChars(s) + "\""
    case _ => ""
  }

  /** `String(v)` inside a template literal. */
  function Plain(v: Json): string {
    match v
    case Undefined => "undefined"
    case Str(s) => s
    case _ => Scalar(v)
  }

  predicate IsObject(v: Json) {
    v.Null? || v.Arr? || v.Obj?
  }

  function Keys(entries: seq<Entry>): seq<string> {
    seq(|entries|, i requires 0 <= i < |entries| => entries[i].key)
  }

  function IndexOf(entries: seq<Entry>, k: string): (i: nat)
    requires k in Keys(entries)
    ensures i < |entries| && entries[i].key == k
  {
    if entries[0].key == k then 0
    else
      assert k in Keys(entries[1..]) by {
        var j :| 0 <= j < |entries| && Keys(entries)[j] == k;
        assert Keys(entries[1..])[j - 1] == k;
      }
      1 + IndexOf(entries[1..], k)
  }

  /** `v[k]`. */
  function Get(entries: seq<Entry>, k: string): Json {
    if k in Keys(entries) then entries[IndexOf(entries, k)].val else Undefined
  }

  function StableStringify(v: Json): string
    decreases v, 1
  {
    match v
    case Undefined => ""
    case Null => ""
    case Arr(items) => "[" + JoinItems(items) + "]"
    case Obj(entries) => "{" + JoinEntries(Sort(Keys(entries)), entries) + "}"
    case _ => Scalar(v)
  }

  function JoinItems(items: seq<Json>): string
    decreases items, 0
  {
    if items == [] then ""
    else
      JoinItems(items[..|items| - 1])
      + (if |items| == 1 then "" else ",")
      + StableStringify(items[|items| - 1])
  }

  function JoinEntries(ks: seq<string>, entries: seq<Entry>): string
    requires forall k :: k in multiset(ks) ==> k in Keys(entries)
    decreases entries, 0, |ks|
  {
    if ks == [] then ""
    else
      var front, k := ks[..|ks| - 1], ks[|ks| - 1];
      assert ks == front + [k];
      JoinEntries(front, entries) + (if |ks| == 1 then "" else ", ") + PairText(entries, k)
  }

  function PairText(entries: seq<Entry>, k: string): string
    requires k in Keys(entries)
    decreases entries, 0, 0, 1
  {
    ":" + k + "=>" + EntryText(entries, k)
  }

  function EntryText(entries: seq<Entry>, k: string): string
    requires k in Keys(entries)
    decreases entries, 0, 0, 0
  {
    var val := entries[IndexOf(entries, k)].val;
    if val.Str? then "\"" + val.s + "\""
    else if val.Num? then val.text
    else if IsObject(val) then StableStringify(val)
    else Plain(val)
  }

  function Decimal(n: nat): string {
    if n < 10 then [HEX_DIGITS[n]] else Decimal(n / 10) + [HEX_DIGITS[n % 10]]
  }

  /** The own properties of a body: an array answers with its indices. */
  function Properties(body: Json): seq<Entry>
    requires body.Arr? || body.Obj?
  {
    match body
    case Arr(items) => seq(|items|, i requires 0 <= i < |items| => Entry(Decimal(i), items[i]))
    case Obj(entries) => entries
  }

  function BodyText(ks: seq<string>, entries: seq<Entry>): string {
    if ks == [] then ""
    else
      BodyText(ks[..|ks| - 1], entries) + FieldText(entries, ks[|ks| - 1])
  }

  /** What one property adds to the body. */
  function FieldText(entries: seq<Entry>, k: string): string {
    var v := Get(entries, k);
    if v.Undefined? || v.Null? then "" else k + if IsObject(v) then StableStringify(v) else Plain(v)
  }

  function SortedBody(body: Json): string {
    if body.Arr? || body.Obj? then BodyText(Sort(Keys(Properties(body))), Properties(body)) else ""
  }

  method BuildSortedBody(body: Json) returns (out: string)
    ensures out == SortedBody(body)
  {
    if !(body.Arr? || body.Obj?) {
      return "";
    }
    var properties := Properties(body);
    var keys := Sort(Keys(properties));
    out := "";
    for i := 0 to |keys|
      invariant out == BodyText(keys[..i], properties)
    {
      var k := keys[i];
      var v := Get(properties, k);
      assert keys[..i + 1][..i] == keys[..i];
      if v.Undefined? || v.Null? {
        continue;
      }
      out := out + if IsObject(v) then k + StableStringify(v) else k + Plain(v);
    }
    assert keys[..|keys|] == keys;
  }

  predicate Truthy(v: Json) {
    match v
    case Undefined => false
    case Null => false
    case Bool(b) => b
    case Num(text) => text != "0" && text != "NaN"
    case Str(s) => s != ""
    case _ => true
  }

  /** The text the HMAC is computed over. */
  function SignedMessage(login: string, xDate: string, body: Json): string {
    var clean := if Truthy(body) then DeepClean(body) else Null;
    login + xDate + SortedBody(clean)
  }
}
