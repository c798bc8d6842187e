/** Decoded JSON, as `json.loads` hands it to the parsers, and the few Python built-ins the
    parsers apply to decoded values: `key in d`, `d[key]`, `d.values()`, `int(x)`,
    `str(x)` and iteration with `for x in v`. Decoding text into a value is not modelled:
    the parsers take the decoder's result as an input. */
module Json {
  import opened Wrappers
  import opened Text

  /** A decoded value. An object keeps its members in insertion order, as a Python dict
      does; `json.loads` leaves at most one member per key. */
  datatype Json =
    | JNull
    | JBool(b: bool)
    | JNum(n: int)
    | JStr(s: String)
    | JArr(items: seq<Json>)
    | JObj(fields: seq<(String, Json)>)

  /** The position of the member with key `k`, if any. */
  function KeyIndex(fields: seq<(String, Json)>, k: String): (r: Option<nat>)
    ensures r.Some? ==> r.value < |fields| && fields[r.value].0 == k
    ensures r.None? ==> forall i :: 0 <= i < |fields| ==> fields[i].0 != k
  {
    if fields == [] then None
    else if fields[0].0 == k then Some(0)
    else match KeyIndex(fields[1..], k)
      case Some(i) => Some(i + 1)
      case None => None
  }

  /** `k in d`. */
  predicate Has(fields: seq<(String, Json)>, k: String) {
    KeyIndex(fields, k).Some?
  }

  /** `d[k]`. */
  function Get(fields: seq<(String, Json)>, k: String): Json
    requires Has(fields, k)
  {
    fields[KeyIndex(fields, k).value].1
  }

  /** `isinstance(x, (int, str))`; a Python bool is an int. */
  predicate IsIntOrStr(v: Json) {
    v.JNum? || v.JBool? || v.JStr?
  }

  /** Python's `int(s)` on a string: optional white space around an optionally signed
      run of ASCII decimal digits, which single underscores may group (`1_000`). */
  function IntOfString(s: String): (r: Option<int>)
    ensures r.Some? ==> UnderscoresGrouped(Strip(s)) && SignedNumeral(Ungrouped(Strip(s))) == r
    ensures '_' !in Strip(s) ==> r == SignedNumeral(Strip(s))
  {
    var t := Strip(s);
    if UnderscoresGrouped(t) then SignedNumeral(Ungrouped(t)) else None
  }

  /** Every underscore of `t` stands between two digits. */
  predicate UnderscoresGrouped(t: String) {
    forall i :: 0 <= i < |t| && t[i] == '_' ==> 0 < i < |t| - 1 && IsDigit(t[i - 1]) && IsDigit(t[i + 1])
  }

  /** `t` without its underscores. */
  function Ungrouped(t: String): (r: String)
    ensures |r| <= |t| && '_' !in r
    ensures '_' !in t ==> r == t
  {
    if t == [] then [] else (if t[0] == '_' then [] else [t[0]]) + Ungrouped(t[1..])
  }

  /** An optionally signed run of decimal digits, with nothing around it. */
  function SignedNumeral(t: String): Option<int> {
    if t != [] && (t[0] == '+' || t[0] == '-') then
      var d := t[1..];
      if d != [] && AllDigits(d) then
        var n: int := DecimalValue(d);
        Some(if t[0] == '-' then -n else n)
      else None
    else if t != [] && AllDigits(t) then Some(DecimalValue(t))
    else None
  }

  /** `int(x)` on a decoded value; None stands for the ValueError or TypeError it raises. */
  function PyInt(v: Json): (r: Option<int>)
    ensures r.Some? ==> IsIntOrStr(v)
  {
    match v
    case JNum(n) => Some(n)
    case JBool(b) => Some(if b then 1 else 0)
    case JStr(s) => IntOfString(s)
    case _ => None
  }

  /** `[int(x) for x in items]`; None when some conversion raises. */
  function ConvertAll(items: seq<Json>): (r: Option<seq<int>>)
    ensures r.Some? <==> forall i :: 0 <= i < |items| ==> PyInt(items[i]).Some?
    ensures r.Some? ==> |r.value| == |items|
    ensures r.Some? ==> forall i :: 0 <= i < |items| ==> r.value[i] == PyInt(items[i]).value
  {
    if items == [] then Some([])
    else
      match (PyInt(items[0]), ConvertAll(items[1..]))
      case (Some(x), Some(rest)) => Some([x] + rest)
      case _ => None
  }

  /** The elements `for x in v` visits: a list's items, a string's characters, an object's
      keys; None for the TypeError the other values raise. */
  function Iterate(v: Json): (r: Option<seq<Json>>)
    ensures r.Some? <==> v.JArr? || v.JStr? || v.JObj?
    ensures v.JStr? ==> |r.value| == |v.s|
    ensures v.JObj? ==> |r.value| == |v.fields| && forall i :: 0 <= i < |v.fields| ==> r.value[i] == JStr(v.fields[i].0)
  {
    match v
    case JArr(items) => Some(items)
    case JStr(s) => Some(seq(|s|, i requires 0 <= i < |s| => JStr([s[i]])))
    case JObj(fields) => Some(seq(|fields|, i requires 0 <= i < |fields| => JStr(fields[i].0)))
    case _ => None
  }

  /** `str(v)`: a string is itself, anything else its Python representation. */
  function Render(v: Json): String {
    if v.JStr? then v.s else Repr(v)
  }

  /** `repr(v)`, with strings single-quoted and no escaping. */
  function Repr(v: Json): String
    decreases v, 1
  {
    match v
    case JNull => "None"
    case JBool(b) => if b then "True" else "False"
    case JNum(n) => IntToString(n)
    case JStr(s) => "'" + s + "'"
    case JArr(items) => "[" + ReprItems(v, 0) + "]"
    case JObj(fields) => "{" + ReprMembers(v, 0) + "}"
  }

  function ReprItems(v: Json, i: nat): String
    requires v.JArr? && i <= |v.items|
    decreases v, 0, |v.items| - i
  {
    if i == |v.items| then ""
    else (if i > 0 then ", " else "") + Repr(v.items[i]) + ReprItems(v, i + 1)
  }

  function ReprMembers(v: Json, i: nat): String
    requires v.JObj? && i <= |v.fields|
    decreases v, 0, |v.fields| - i
  {
    if i == |v.fields| then ""
    else
      (if i > 0 then ", " else "") + "'" + v.fields[i].0 + "': " + Repr(v.fields[i].1)
      + ReprMembers(v, i + 1)
  }

  /** What `str` writes for an integer has no white space around it. */
  lemma {:induction false} IntToStringStripped(i: int)
    ensures Strip(IntToString(i)) == IntToString(i)
  {
    var s := IntToString(i);
    assert s[0] == '-' || IsDigit(s[0]);
    StripKeeps(s);
  }

  /** What `str` writes for an integer reads back as that integer. */
  lemma {:induction false} IntToStringNumeral(i: int)
    ensures SignedNumeral(IntToString(i)) == Some(i)
  {
    if i < 0 {
      NegativeNumeral(-i);
    } else {
      NaturalNumeral(i);
    }
  }

  lemma {:induction false} NaturalNumeral(n: nat)
    ensures SignedNumeral(NatToString(n)) == Some(n)
  {
    var d := NatToString(n);
    DecimalRoundTrip(n);
    assert IsDigit(d[0]);
  }

  lemma {:induction false} NegativeNumeral(n: nat)
    requires n > 0
    ensures SignedNumeral("-" + NatToString(n)) == Some(-(n as int))
  {
    var d := NatToString(n);
    var s := "-" + d;
    DecimalRoundTrip(n);
    assert s[1..] == d;
  }

  /** `int(str(i))` gives `i` back: what `str` writes, `int` reads. */
  lemma {:induction false} IntOfStringRoundTrip(i: int)
    ensures IntOfString(IntToString(i)) == Some(i)
  {
    var s := IntToString(i);
    IntToStringStripped(i);
    IntToStringNumeral(i);
    assert forall k :: 0 <= k < |s| ==> s[k] == '-' || IsDigit(s[k]);
  }

  /** Underscores between digits are dropped. */
  lemma {:induction false} IntOfStringGrouped()
    ensures IntOfString("1_000") == Some(1000)
  {
    StripKeeps("1_000");
    GroupedThousand();
    UngroupedThousand();
    ThousandValue();
  }

  lemma GroupedThousand()
    ensures UnderscoresGrouped("1_000")
  {
    assert forall i :: 0 <= i < 5 && i != 1 ==> "1_000"[i] != '_';
  }

  lemma UngroupedThousand()
    ensures Ungrouped("1_000") == "1000"
  {
    assert "1_000"[1..] == "_000" && "_000"[1..] == "000";
    assert Ungrouped("000") == "000";
  }

  lemma ThousandValue()
    ensures AllDigits("1000") && DecimalValue("1000") == 1000
  {
    assert "1000"[..3] == "100" && "100"[..2] == "10" && "10"[..1] == "1" && "1"[..0] == "";
  }

  /** An underscore that does not stand between two digits is refused. */
  lemma {:induction false} IntOfStringMisgrouped()
    ensures IntOfString("1__0") == None
  {
    StripKeeps("1__0");
    assert "1__0"[1] == '_' && !IsDigit("1__0"[2]);
  }

}
