/** Trace context and baggage headers (kurd/distributed_tracing.py:113-137, 153-159, 178-247): `traceparent` of
    section 3.2 of W3C Trace Context, `baggage` of section 3 of W3C Baggage. Random ids are parameters. */
module TraceContext {
  import opened Options

  // ---------------------------------------------------------------- strings

  /** `s.split(sep)`. */
  function Split(s: string, sep: char): (parts: seq<string>)
    ensures |parts| >= 1
  {
    if s == "" then [""]
    else if s[0] == sep then [""] + Split(s[1..], sep)
    else var rest := Split(s[1..], sep); [[s[0]] + rest[0]] + rest[1..]
  }

  /** `s.split('=', 1)` of a string that contains the separator. */
  function SplitFirst(s: string, sep: char): (string, string)
    requires sep in s
  {
    if s[0] == sep then ("", s[1..])
    else var (before, after) := SplitFirst(s[1..], sep); ([s[0]] + before, after)
  }

  /** The characters that Python's `str.strip` removes. */
  predicate IsSpace(c: char) {
    || '\t' <= c <= '\r' || '\U{1c}' <= c <= ' ' || c == '\U{85}' || c == '\U{a0}' || c == '\U{1680}'
    || '\U{2000}' <= c <= '\U{200a}' || c == '\U{2028}' || c == '\U{2029}' || c == '\U{202f}' || c == '\U{205f}'
    || c == '\U{3000}'
  }

  function StripLeft(s: string): string {
    if s != "" && IsSpace(s[0]) then StripLeft(s[1..]) else s
  }

  function StripRight(s: string): string {
    if s != "" && IsSpace(s[|s| - 1]) then StripRight(s[..|s| - 1]) else s
  }

  function Strip(s: string): string {
    StripRight(StripLeft(s))
  }

  function Count(s: string, c: char): nat {
    if s == "" then 0 else (if s[0] == c then 1 else 0) + Count(s[1..], c)
  }

  // ---------------------------------------------------------------- contexts and headers

  type Headers = map<string, string>

  datatype Context = Context(traceId: string, spanId: string, flags: string, baggage: map<string, string>)

  function Header(headers: Headers, name: string): string {
    if name in headers then headers[name] else ""
  }

  /** Python's `value or fallback`. */
  function Or(value: string, fallback: string): string {
    if value == "" then fallback else value
  }

  function AddItem(baggage: map<string, string>, item: string): map<string, string> {
    if '=' !in item then baggage else
      var (key, value) := SplitFirst(item, '=');
      baggage[Strip(key) := Strip(value)]
  }

  function ParseItems(items: seq<string>): map<string, string> {
    if items == [] then map[] else AddItem(ParseItems(items[..|items| - 1]), items[|items| - 1])
  }

  function ParseBaggage(header: string): map<string, string> {
    if header == "" then map[] else ParseItems(Split(header, ','))
  }

  /** `extract_context`, with the ids it would generate. */
  function Extract(headers: Headers, newTraceId: string, newSpanId: string): Context {
    var parts := Split(Header(headers, "traceparent"), '-');
    var baggage := ParseBaggage(Header(headers, "baggage"));
    if |parts| == 4 then Context(Or(parts[1], newTraceId), Or(parts[2], newSpanId), parts[3], baggage)
    else Context(newTraceId, newSpanId, "01", baggage)
  }

  function Item(key: string, value: string): string {
    key + "=" + value
  }

  function Items(keys: seq<string>, baggage: map<string, string>): seq<string>
    requires forall k | k in keys :: k in baggage
  {
    seq(|keys|, i requires 0 <= i < |keys| => assert keys[i] in keys; Item(keys[i], baggage[keys[i]]))
  }

  /** `", ".join(items)`. */
  function Join(items: seq<string>): string {
    if items == [] then "" else if |items| == 1 then items[0] else items[0] + ", " + Join(items[1..])
  }

  function TraceParent(traceId: string, spanId: string, flags: string): string {
    "00-" + traceId + "-" + spanId + "-" + flags
  }

  ghost predicate Orders(keys: seq<string>, baggage: map<string, string>) {
    forall k :: k in keys <==> k in baggage
  }

  /** `inject_context`: `keys` is the insertion order of the baggage, `downstream` the new span id. */
  function Inject(c: Context, keys: seq<string>, downstream: string): Headers
    requires forall k | k in keys :: k in c.baggage
  {
    var headers := map["traceparent" := TraceParent(c.traceId, downstream, c.flags),
                       "tracestate" := "kurd-span=" + c.spanId];
    if c.baggage == map[] then headers else headers["baggage" := Join(Items(keys, c.baggage))]
  }

  class TracingContext {
    var traceId: string
    var spanId: string
    var flags: string
    var baggage: map<string, string>

    constructor (traceId: string, spanId: string, flags: string, newTraceId: string, newSpanId: string)
      ensures this.traceId == Or(traceId, newTraceId) && this.spanId == Or(spanId, newSpanId)
      ensures this.flags == flags && baggage == map[]
    {
      this.traceId := if traceId == "" then newTraceId else traceId;
      this.spanId := if spanId == "" then newSpanId else spanId;
      this.flags, this.baggage := flags, map[];
    }

    method SetBaggage(key: string, value: string)
      modifies this`baggage
      ensures baggage == old(baggage)[key := value]
    {
      baggage := baggage[key := value];
    }
  }

  method ExtractContext(headers: Headers, newTraceId: string, newSpanId: string) returns (context: TracingContext)
    ensures fresh(context)
    ensures Extract(headers, newTraceId, newSpanId) ==
            Context(context.traceId, context.spanId, context.flags, context.baggage)
  {
    var traceparent, baggageHeader := Header(headers, "traceparent"), Header(headers, "baggage");
    var traceId, spanId, flags := "", "", "01";
    if traceparent != "" {
      var parts := Split(traceparent, '-');
      if |parts| == 4 {
        traceId, spanId, flags := parts[1], parts[2], parts[3];
      }
    }
    context := new TracingContext(traceId, spanId, flags, newTraceId, newSpanId);
    ghost var made := Context(context.traceId, context.spanId, context.flags, map[]);
    if baggageHeader != "" {
      var items := Split(baggageHeader, ',');
      for i := 0 to |items|
        invariant context.baggage == ParseItems(items[..i])
        invariant made == Context(context.traceId, context.spanId, context.flags, map[])
      {
        assert items[..i + 1][..i] == items[..i];
        if '=' in items[i] {
          var (key, value) := SplitFirst(items[i], '=');
          context.SetBaggage(Strip(key), Strip(value));
        }
      }
      assert items[..|items|] == items;
    }
  }

  // ---------------------------------------------------------------- splitting

  lemma {:induction false} SplitAfter(a: string, sep: char, rest: string)
    requires sep !in a
    ensures Split(a + [sep] + rest, sep) == [a] + Split(rest, sep)
    ensures Split(a, sep) == [a]
  {
    var s := a + [sep] + rest;
    if a == "" {
      assert s[1..] == rest;
    } else {
      SplitAfter(a[1..], sep, rest);
      assert s[1..] == a[1..] + [sep] + rest;
      assert a == [a[0]] + a[1..];
    }
  }

  lemma {:induction false} SplitParts(s: string, sep: char)
    ensures |Split(s, sep)| == Count(s, sep) + 1
    ensures forall p | p in Split(s, sep) :: sep !in p
  {
    if s == "" {
    } else {
      SplitParts(s[1..], sep);
    }
  }

  lemma {:induction false} CountConcat(a: string, b: string, c: char)
    ensures Count(a + b, c) == Count(a, c) + Count(b, c)
    ensures Count(a, c) > 0 <==> c in a
  {
    if a == "" {
      assert a + b == b;
    } else {
      CountConcat(a[1..], b, c);
      assert (a + b)[1..] == a[1..] + b;
    }
  }

  lemma {:induction false} SplitFirstItem(key: string, value: string)
    requires '=' !in key
    ensures SplitFirst(Item(key, value), '=') == (key, value)
  {
    if key == "" {
      assert Item(key, value)[1..] == value;
    } else {
      SplitFirstItem(key[1..], value);
      assert Item(key, value)[1..] == Item(key[1..], value);
      assert key == [key[0]] + key[1..];
    }
  }

  lemma {:induction false} SplitFirstChars(s: string, sep: char)
    requires sep in s
    ensures sep !in SplitFirst(s, sep).0
    ensures forall c | c in SplitFirst(s, sep).0 || c in SplitFirst(s, sep).1 :: c in s
  {
    if s[0] != sep {
      SplitFirstChars(s[1..], sep);
    }
  }

  // ---------------------------------------------------------------- stripping

  predicate Stripped(s: string) {
    s == "" || (!IsSpace(s[0]) && !IsSpace(s[|s| - 1]))
  }

  lemma {:induction false} StripLeftStrips(s: string)
    ensures var r := StripLeft(s);
            && (r == "" || !IsSpace(r[0]))
            && (forall c | c in r :: c in s)
  {
    if s != "" && IsSpace(s[0]) {
      StripLeftStrips(s[1..]);
    }
  }

  lemma {:induction false} StripRightStrips(s: string)
    ensures var r := StripRight(s);
            && r <= s
            && (r == "" || !IsSpace(r[|r| - 1]))
  {
    if s != "" && IsSpace(s[|s| - 1]) {
      StripRightStrips(s[..|s| - 1]);
    }
  }

  lemma {:induction false} StripStrips(s: string)
    ensures Stripped(Strip(s)) && (Stripped(s) <==> Strip(s) == s)
    ensures forall c | c in Strip(s) :: c in s
  {
    StripLeftStrips(s);
    StripRightStrips(StripLeft(s));
  }

  // ---------------------------------------------------------------- baggage

  predicate CleanKey(k: string) {
    ',' !in k && '=' !in k && Stripped(k)
  }

  predicate CleanValue(v: string) {
    ',' !in v && Stripped(v)
  }

  ghost predicate CleanBaggage(baggage: map<string, string>) {
    forall k | k in baggage :: CleanKey(k) && CleanValue(baggage[k])
  }

  lemma {:induction false} ParsedIsClean(items: seq<string>)
    requires forall p | p in items :: ',' !in p
    ensures CleanBaggage(ParseItems(items))
  {
    if items == [] {
    } else {
      var item := items[|items| - 1];
      ParsedIsClean(items[..|items| - 1]);
      if '=' in item {
        var (key, value) := SplitFirst(item, '=');
        SplitFirstChars(item, '=');
        StripStrips(key);
        StripStrips(value);
      }
    }
  }

  function Padded(items: seq<string>): seq<string> {
    seq(|items|, i requires 0 <= i < |items| => if i == 0 then items[i] else " " + items[i])
  }

  lemma {:induction false} SplitJoined(items: seq<string>, pad: string)
    requires items != [] && (pad == "" || pad == " ") && forall p | p in items :: ',' !in p
    ensures Split(pad + Join(items), ',') == [pad + items[0]] + Padded(items)[1..]
  {
    if |items| == 1 {
      SplitAfter(pad + items[0], ',', "");
    } else {
      SplitJoined(items[1..], " ");
      SplitAfter(pad + items[0], ',', " " + Join(items[1..]));
      JoinedAfter(items, pad);
      PaddedAfter(items);
    }
  }

  lemma {:induction false} JoinedAfter(items: seq<string>, pad: string)
    requires |items| > 1
    ensures pad + Join(items) == (pad + items[0]) + [','] + (" " + Join(items[1..]))
  {
  }

  lemma {:induction false} PaddedAfter(items: seq<string>)
    requires |items| > 1
    ensures [" " + items[1]] + Padded(items[1..])[1..] == Padded(items)[1..]
  {
  }

  lemma {:induction false} StripPadded(key: string, pad: string)
    requires CleanKey(key) && (pad == "" || pad == " ")
    ensures Strip(pad + key) == key && '=' !in pad + key
  {
    StripStrips(key);
    if pad == " " {
      assert (" " + key)[1..] == key;
    } else {
      assert pad + key == key;
    }
  }

  lemma {:induction false} ParseCleanItem(baggage: map<string, string>, key: string, value: string, pad: string)
    requires CleanKey(key) && CleanValue(value) && (pad == "" || pad == " ")
    ensures AddItem(baggage, pad + Item(key, value)) == baggage[key := value]
  {
    StripPadded(key, pad);
    StripStrips(value);
    var padded := pad + key;
    assert pad + Item(key, value) == Item(padded, value);
    assert Item(padded, value)[|padded|] == '=';
    SplitFirstItem(padded, value);
  }

  /** Items that each add their own key parse, in order, to the map of those keys. */
  lemma {:induction false} ParseInOrder(items: seq<string>, keys: seq<string>, baggage: map<string, string>)
    requires |items| == |keys| && forall k | k in keys :: k in baggage
    requires forall i, b | 0 <= i < |items| :: AddItem(b, items[i]) == b[keys[i] := baggage[keys[i]]]
    ensures ParseItems(items) == map k | k in keys :: baggage[k]
  {
    if keys == [] {
    } else {
      var n := |keys| - 1;
      ParseInOrder(items[..n], keys[..n], baggage);
      assert keys == keys[..n] + [keys[n]];
      assert AddItem(ParseItems(items[..n]), items[n]) == ParseItems(items[..n])[keys[n] := baggage[keys[n]]];
    }
  }

  lemma {:induction false} ParsePadded(keys: seq<string>, baggage: map<string, string>)
    requires (forall k | k in keys :: k in baggage) && CleanBaggage(baggage)
    ensures ParseItems(Padded(Items(keys, baggage))) == map k | k in keys :: baggage[k]
  {
    var items := Padded(Items(keys, baggage));
    forall i, b | 0 <= i < |items|
      ensures AddItem(b, items[i]) == b[keys[i] := baggage[keys[i]]]
    {
      assert keys[i] in keys;
      var pad := if i == 0 then "" else " ";
      assert items[i] == pad + Item(keys[i], baggage[keys[i]]);
      ParseCleanItem(b, keys[i], baggage[keys[i]], pad);
    }
    ParseInOrder(items, keys, baggage);
  }

  lemma {:induction false} CleanItemsHaveNoComma(keys: seq<string>, baggage: map<string, string>)
    requires (forall k | k in keys :: k in baggage) && CleanBaggage(baggage)
    ensures forall p | p in Items(keys, baggage) :: ',' !in p && p != ""
  {
    forall i | 0 <= i < |keys|
      ensures ',' !in Items(keys, baggage)[i]
    {
      assert keys[i] in keys;
    }
  }

  /** Baggage survives injection and extraction exactly when its keys have no comma or equals sign, its values no comma,
      and neither has outer white space. An equals sign inside a value is harmless. */
  lemma {:induction false} BaggageRoundTripExactly(keys: seq<string>, baggage: map<string, string>)
    requires Orders(keys, baggage) && baggage != map[]
    ensures ParseBaggage(Join(Items(keys, baggage))) == baggage <==> CleanBaggage(baggage)
  {
    var items := Items(keys, baggage);
    if CleanBaggage(baggage) {
      CleanItemsHaveNoComma(keys, baggage);
      var some :| some in baggage;
      assert some in keys && items != [];
      SplitJoined(items, "");
      assert "" + Join(items) == Join(items) && "" + items[0] == items[0];
      assert [items[0]] + Padded(items)[1..] == Padded(items);
      ParsePadded(keys, baggage);
      assert Join(items) != "" by {
        assert items[0] in items;
      }
      assert (map k | k in keys :: baggage[k]) == baggage;
    } else {
      SplitParts(Join(items), ',');
      ParsedIsClean(Split(Join(items), ','));
    }
  }

  // ---------------------------------------------------------------- the whole context

  predicate CleanIds(c: Context) {
    '-' !in c.traceId && c.traceId != "" && '-' !in c.flags
  }

  lemma {:induction false} TraceParentRoundTrip(c: Context, downstream: string)
    requires '-' !in downstream
    ensures var parts := Split(TraceParent(c.traceId, downstream, c.flags), '-');
            if '-' !in c.traceId && '-' !in c.flags then parts == ["00", c.traceId, downstream, c.flags]
            else |parts| != 4
  {
    var t, d, f := c.traceId, downstream, c.flags;
    var s := TraceParent(t, d, f);
    var s2 := d + ['-'] + f;
    var s1 := t + ['-'] + s2;
    assert s == "00" + ['-'] + s1;
    if '-' !in t && '-' !in f {
      SplitAfter("00", '-', s1);
      SplitAfter(t, '-', s2);
      SplitAfter(d, '-', f);
      SplitAfter(f, '-', "");
    } else {
      SplitParts(s, '-');
      CountConcat("00" + ['-'], s1, '-');
      CountConcat("00", ['-'], '-');
      CountConcat(t + ['-'], s2, '-');
      CountConcat(t, ['-'], '-');
      CountConcat(d + ['-'], f, '-');
      CountConcat(d, ['-'], '-');
      CountConcat(f, "", '-');
    }
  }

  /** Extracting what was injected gives back the trace id, the flags and the whole baggage, in whatever order the
      baggage was written, exactly when the ids and the baggage are clean; and then the receiver's span is the one the
      sender announced. */
  lemma {:induction false} RoundTripExactly(c: Context, keys: seq<string>, downstream: string, newTraceId: string,
                                            newSpanId: string)
    requires Orders(keys, c.baggage)
    requires '-' !in downstream && downstream != "" && '-' !in newTraceId && newTraceId != ""
    ensures var back := Extract(Inject(c, keys, downstream), newTraceId, newSpanId);
            (back.traceId == c.traceId && back.flags == c.flags && back.baggage == c.baggage) <==>
            (CleanIds(c) && CleanBaggage(c.baggage))
    ensures CleanIds(c) ==> Extract(Inject(c, keys, downstream), newTraceId, newSpanId).spanId == downstream
  {
    TraceParentRoundTrip(c, downstream);
    if c.baggage != map[] {
      BaggageRoundTripExactly(keys, c.baggage);
    }
  }

  /** What extraction does with any headers: without a `traceparent` of four parts the ids are new and the flags "01",
      an empty id is replaced, and without a `baggage` header there is no baggage. */
  lemma {:induction false} ExtractDefaults(headers: Headers, newTraceId: string, newSpanId: string)
    ensures var c := Extract(headers, newTraceId, newSpanId);
            && ("traceparent" !in headers || |Split(headers["traceparent"], '-')| != 4 ==>
                  c.traceId == newTraceId && c.spanId == newSpanId && c.flags == "01")
            && ("traceparent" in headers && |Split(headers["traceparent"], '-')| == 4 ==>
                  var parts := Split(headers["traceparent"], '-');
                  && c.traceId == (if parts[1] == "" then newTraceId else parts[1])
                  && c.spanId == (if parts[2] == "" then newSpanId else parts[2])
                  && c.flags == parts[3])
            && ("baggage" !in headers ==> c.baggage == map[])
  {
    assert Split("", '-') == [""];
  }

  /** What injection writes: the header of version 00 with the new span id, the old one in `tracestate`, and the items
      of a non-empty baggage with a comma and a space between two of them. */
  lemma {:induction false} InjectedHeaders(c: Context, keys: seq<string>, downstream: string)
    requires Orders(keys, c.baggage)
    ensures var h := Inject(c, keys, downstream);
            && h.Keys == {"traceparent", "tracestate"} + (if c.baggage == map[] then {} else {"baggage"})
            && h["traceparent"] == "00-" + c.traceId + "-" + downstream + "-" + c.flags
            && h["tracestate"] == "kurd-span=" + c.spanId
            && (c.baggage != map[] ==> h["baggage"] == Join(Items(keys, c.baggage)))
    ensures forall i | 0 <= i < |keys| :: Items(keys, c.baggage)[i] == keys[i] + "=" + c.baggage[keys[i]]
  {
  }

  lemma {:induction false} JoinAppends(items: seq<string>, last: string)
    ensures Join([last]) == last
    ensures items != [] ==> Join(items + [last]) == Join(items) + ", " + last
  {
    if |items| <= 1 {
      if items != [] {
        assert (items + [last])[1..] == [last];
      }
    } else {
      JoinAppends(items[1..], last);
      assert (items + [last])[1..] == items[1..] + [last];
    }
  }

  /** The ASCII characters that stripping removes. */
  lemma {:induction false} AsciiSpaces(c: char)
    requires c < 128 as char
    ensures IsSpace(c) <==> c in "\t\n\r " || 11 <= c as int <= 12 || 28 <= c as int <= 31
  {
  }
}
