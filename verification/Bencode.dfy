/** The bencode reader (`parse_bencode` in src/nat/tracker.rs; the format is that of BEP 3). */
module Bencode {
  import opened Wrappers

  type Byte = n: int | 0 <= n < 0x100

  datatype Value = Int(n: int) | Bytes(bytes: seq<Byte>) | List(items: seq<Value>) | Dict(entries: seq<Entry>)

  datatype Entry = Entry(key: seq<Byte>, value: Value)

  const TAG_INT: Byte := 0x69
  const TAG_LIST: Byte := 0x6C
  const TAG_DICT: Byte := 0x64
  const END: Byte := 0x65
  const COLON: Byte := 0x3A
  const MINUS: Byte := 0x2D
  const PLUS: Byte := 0x2B

  // ---------- numbers in decimal ----------

  predicate IsDigit(b: Byte) {
    0x30 <= b <= 0x39
  }

  predicate AllDigits(s: seq<Byte>) {
    forall i :: 0 <= i < |s| ==> IsDigit(s[i])
  }

  function Decimal(s: seq<Byte>): (n: nat)
    requires AllDigits(s)
  {
    if s == [] then 0 else Decimal(s[..|s| - 1]) * 10 + (s[|s| - 1] - 0x30)
  }

  function Digits(n: nat): (s: seq<Byte>)
    ensures s != [] && AllDigits(s) && Decimal(s) == n
  {
    if n < 10 then [0x30 + n]
    else
      var s := Digits(n / 10) + [0x30 + n % 10];
      assert s[..|s| - 1] == Digits(n / 10);
      s
  }

  function ParseUnsigned(s: seq<Byte>): Option<nat> {
    if s == [] || !AllDigits(s) then None else Some(Decimal(s))
  }

  /** `i64::from_str`: an optional sign and at least one digit, in range. */
  function ParseI64(s: seq<Byte>): Option<int> {
    var negative := s != [] && s[0] == MINUS;
    var m := ParseUnsigned(if negative || (s != [] && s[0] == PLUS) then s[1..] else s);
    if m.None? then None
    else
      var n: int := if negative then 0 - m.value else m.value;
      if InI64(n) then Some(n) else None
  }

  predicate InI64(n: int) {
    -0x8000_0000_0000_0000 <= n < 0x8000_0000_0000_0000
  }

  /** `usize::from_str` on a 64-bit machine. */
  function ParseUsize(s: seq<Byte>): Option<nat> {
    var n := if s != [] && s[0] == PLUS then ParseUnsigned(s[1..]) else ParseUnsigned(s);
    if n.Some? && n.value < 0x1_0000_0000_0000_0000 then n else None
  }

  // ---------- the reader ----------

  /** The first position from `i` on that holds `b`, or the end of the data. */
  function Find(data: seq<Byte>, i: nat, b: Byte): (j: nat)
    requires i <= |data|
    ensures i <= j <= |data| && (j < |data| ==> data[j] == b)
    ensures forall k :: i <= k < j ==> data[k] != b
    decreases |data| - i
  {
    if i == |data| || data[i] == b then i else Find(data, i + 1, b)
  }

  /** What the text from position `i` on means, and where it ends.  On success the cursor has moved and is in bounds. */
  function Parse(data: seq<Byte>, i: nat): (r: Result<(Value, nat)>)
    ensures r.Ok? ==> i < r.value.1 <= |data|
    decreases |data| - i, 0
  {
    if i >= |data| then Err
    else if data[i] == TAG_INT then ParseInt(data, i)
    else if data[i] == TAG_LIST then
      var items := ParseItems(data, i + 1);
      if items.Ok? then Ok((List(items.value.0), items.value.1)) else Err
    else if data[i] == TAG_DICT then
      var entries := ParseEntries(data, i + 1);
      if entries.Ok? then Ok((Dict(entries.value.0), entries.value.1)) else Err
    else if IsDigit(data[i]) then ParseBytes(data, i)
    else Err
  }

  function ParseInt(data: seq<Byte>, i: nat): (r: Result<(Value, nat)>)
    requires i < |data|
    ensures r.Ok? ==> i < r.value.1 <= |data|
  {
    var j := Find(data, i + 1, END);
    var n := ParseI64(data[i + 1..j]);
    if j < |data| && n.Some? then Ok((Int(n.value), j + 1)) else Err
  }

  function ParseBytes(data: seq<Byte>, i: nat): (r: Result<(Value, nat)>)
    requires i < |data|
    ensures r.Ok? ==> i < r.value.1 <= |data|
  {
    var j := Find(data, i, COLON);
    var len := ParseUsize(data[i..j]);
    if j < |data| && len.Some? && len.value <= |data| - (j + 1)
    then Ok((Bytes(data[j + 1..j + 1 + len.value]), j + 1 + len.value)) else Err
  }

  function ParseItems(data: seq<Byte>, i: nat): (r: Result<(seq<Value>, nat)>)
    ensures r.Ok? ==> i < r.value.1 <= |data|
    decreases |data| - i, 1
  {
    if i >= |data| then Err
    else if data[i] == END then Ok(([], i + 1))
    else
      var item := Parse(data, i);
      if item.Err? then Err
      else
        var rest := ParseItems(data, item.value.1);
        if rest.Ok? then Ok(([item.value.0] + rest.value.0, rest.value.1)) else Err
  }

  function ParseEntries(data: seq<Byte>, i: nat): (r: Result<(seq<Entry>, nat)>)
    ensures r.Ok? ==> i < r.value.1 <= |data|
    decreases |data| - i, 1
  {
    if i >= |data| then Err
    else if data[i] == END then Ok(([], i + 1))
    else
      var key := Parse(data, i);
      if key.Err? || !key.value.0.Bytes? then Err
      else
        var value := Parse(data, key.value.1);
        if value.Err? then Err
        else
          var rest := ParseEntries(data, value.value.1);
          if rest.Ok? then Ok(([Entry(key.value.0.bytes, value.value.0)] + rest.value.0, rest.value.1)) else Err
  }

  function PrependItems(items: seq<Value>, r: Result<(seq<Value>, nat)>): Result<(seq<Value>, nat)> {
    if r.Ok? then Ok((items + r.value.0, r.value.1)) else Err
  }

  function PrependEntries(entries: seq<Entry>, r: Result<(seq<Entry>, nat)>): Result<(seq<Entry>, nat)> {
    if r.Ok? then Ok((entries + r.value.0, r.value.1)) else Err
  }

  /** The reader itself: loops that advance a cursor, and recursion into items, keys and values. */
  method ParseBencode(data: seq<Byte>, start: nat) returns (r: Result<(Value, nat)>)
    ensures r == Parse(data, start)
    decreases |data| - start, 1
  {
    if start >= |data| {
      return Err;
    }
    if data[start] == TAG_INT {
      var i := SkipTo(data, start + 1, END);
      if i >= |data| {
        return Err;
      }
      var n := ParseI64(data[start + 1..i]);
      return if n.Some? then Ok((Int(n.value), i + 1)) else Err;
    } else if data[start] == TAG_LIST {
      r := ParseList(data, start);
    } else if data[start] == TAG_DICT {
      r := ParseDict(data, start);
    } else if IsDigit(data[start]) {
      var i := SkipTo(data, start, COLON);
      if i >= |data| {
        return Err;
      }
      var len := ParseUsize(data[start..i]);
      if len.None? || |data| - (i + 1) < len.value {
        return Err;
      }
      r := Ok((Bytes(data[i + 1..i + 1 + len.value]), i + 1 + len.value));
    } else {
      r := Err;
    }
  }

  method SkipTo(data: seq<Byte>, start: nat, b: Byte) returns (i: nat)
    requires start <= |data|
    ensures i == Find(data, start, b)
  {
    i := start;
    while i < |data| && data[i] != b
      invariant start <= i <= |data| && Find(data, start, b) == Find(data, i, b)
    {
      i := i + 1;
    }
  }

  method ParseList(data: seq<Byte>, start: nat) returns (r: Result<(Value, nat)>)
    requires start < |data| && data[start] == TAG_LIST
    ensures r == Parse(data, start)
    decreases |data| - start, 0
  {
    var i, items := start + 1, [];
    ghost var all := ParseItems(data, i);
    assert all.Ok? ==> [] + all.value.0 == all.value.0;
    while i < |data| && data[i] != END
      invariant start < i <= |data|
      invariant ParseItems(data, start + 1) == PrependItems(items, ParseItems(data, i))
      decreases |data| - i
    {
      var item := ParseBencode(data, i);
      if item.Err? {
        return Err;
      }
      ghost var rest := ParseItems(data, item.value.1);
      assert rest.Ok? ==> items + ([item.value.0] + rest.value.0) == (items + [item.value.0]) + rest.value.0;
      items, i := items + [item.value.0], item.value.1;
    }
    if i >= |data| {
      return Err;
    }
    assert items + [] == items;
    r := Ok((List(items), i + 1));
  }

  method ParseDict(data: seq<Byte>, start: nat) returns (r: Result<(Value, nat)>)
    requires start < |data| && data[start] == TAG_DICT
    ensures r == Parse(data, start)
    decreases |data| - start, 0
  {
    var i, entries := start + 1, [];
    ghost var all := ParseEntries(data, i);
    assert all.Ok? ==> [] + all.value.0 == all.value.0;
    while i < |data| && data[i] != END
      invariant start < i <= |data|
      invariant ParseEntries(data, start + 1) == PrependEntries(entries, ParseEntries(data, i))
      decreases |data| - i
    {
      var key := ParseBencode(data, i);
      if key.Err? || !key.value.0.Bytes? {
        return Err;
      }
      var value := ParseBencode(data, key.value.1);
      if value.Err? {
        return Err;
      }
      var entry := Entry(key.value.0.bytes, value.value.0);
      ghost var rest := ParseEntries(data, value.value.1);
      assert rest.Ok? ==> entries + ([entry] + rest.value.0) == (entries + [entry]) + rest.value.0;
      entries, i := entries + [entry], value.value.1;
    }
    if i >= |data| {
      return Err;
    }
    assert entries + [] == entries;
    r := Ok((Dict(entries), i + 1));
  }

  // ---------- the writer that BEP 3 defines ----------

  function EncodeBytes(b: seq<Byte>): (s: seq<Byte>)
    ensures s != [] && IsDigit(s[0])
  {
    Digits(|b|) + [COLON] + b
  }

  function EncodeInt(n: int): seq<Byte> {
    if n < 0 then [MINUS] + Digits(-n) else Digits(n)
  }

  function Encode(v: Value): (s: seq<Byte>)
    ensures s != [] && s[0] != END
  {
    match v
    case Int(n) => [TAG_INT] + EncodeInt(n) + [END]
    case Bytes(b) => EncodeBytes(b)
    case List(items) => [TAG_LIST] + EncodeItems(items) + [END]
    case Dict(entries) => [TAG_DICT] + EncodeEntries(entries) + [END]
  }

  function EncodeItems(items: seq<Value>): seq<Byte> {
    if items == [] then [] else Encode(items[0]) + EncodeItems(items[1..])
  }

  function EncodeEntries(entries: seq<Entry>): seq<Byte> {
    if entries == [] then []
    else EncodeBytes(entries[0].key) + (Encode(entries[0].value) + EncodeEntries(entries[1..]))
  }

  /** The machine can hold the value: integers fit an i64 and byte strings have a 64-bit length. */
  predicate Representable(v: Value) {
    match v
    case Int(n) => InI64(n)
    case Bytes(b) => |b| < 0x1_0000_0000_0000_0000
    case List(items) => forall i :: 0 <= i < |items| ==> Representable(items[i])
    case Dict(entries) => forall i :: 0 <= i < |entries| ==> RepresentableEntry(entries[i])
  }

  predicate RepresentableEntry(e: Entry) {
    |e.key| < 0x1_0000_0000_0000_0000 && Representable(e.value)
  }

  // ---------- reading what was written ----------

  /** `s` is what `data` holds from position `i` on. */
  predicate Holds(data: seq<Byte>, i: nat, s: seq<Byte>) {
    i + |s| <= |data| && data[i..i + |s|] == s
  }

  lemma HoldsParts(data: seq<Byte>, i: nat, s: seq<Byte>, t: seq<Byte>)
    requires Holds(data, i, s + t)
    ensures Holds(data, i, s) && Holds(data, i + |s|, t)
  {
    assert data[i..i + |s|] == (s + t)[..|s|] == s;
    assert data[i + |s|..i + |s| + |t|] == (s + t)[|s|..] == t;
  }

  lemma HoldsAt(data: seq<Byte>, i: nat, s: seq<Byte>)
    requires Holds(data, i, s) && s != []
    ensures i < |data| && data[i] == s[0]
  {
    assert data[i..i + |s|][0] == s[0];
  }

  lemma FindHeld(data: seq<Byte>, i: nat, s: seq<Byte>, b: Byte)
    requires Holds(data, i, s + [b]) && b !in s
    ensures Find(data, i, b) == i + |s| && data[i..i + |s|] == s
  {
    HoldsParts(data, i, s, [b]);
    assert forall k :: i <= k < i + |s| ==> data[k] == s[k - i];
    assert data[i + |s|] == [b][0];
    FindUnique(data, i, b, i + |s|);
  }

  lemma {:induction false} FindUnique(data: seq<Byte>, i: nat, b: Byte, j: nat)
    requires i <= j < |data| && data[j] == b && forall k :: i <= k < j ==> data[k] != b
    ensures Find(data, i, b) == j
    decreases j - i
  {
    if i < j {
      FindUnique(data, i + 1, b, j);
    }
  }

  lemma IntReads(n: int)
    requires InI64(n)
    ensures ParseI64(EncodeInt(n)) == Some(n) && END !in EncodeInt(n)
  {
    assert n < 0 ==> EncodeInt(n)[1..] == Digits(-n);
  }

  /** The reader also takes integers that no writer produces: with a plus sign, and with leading zeros. */
  lemma LenientInts(n: nat)
    requires InI64(n)
    ensures ParseI64([PLUS] + Digits(n)) == Some(n) && ParseI64([0x30] + Digits(n)) == Some(n)
    ensures ParseI64([]).None? && ParseI64([MINUS]).None? && ParseI64([PLUS]).None?
  {
    assert ([PLUS] + Digits(n))[1..] == Digits(n);
    LeadingZero(Digits(n));
  }

  lemma {:induction false} LeadingZero(s: seq<Byte>)
    requires AllDigits(s)
    ensures AllDigits([0x30] + s) && Decimal([0x30] + s) == Decimal(s)
  {
    var zero := [0x30] + s;
    if s == [] {
      assert zero[..0] == [];
    } else {
      LeadingZero(s[..|s| - 1]);
      assert zero[..|zero| - 1] == [0x30] + s[..|s| - 1];
    }
  }

  lemma BytesRead(data: seq<Byte>, i: nat, b: seq<Byte>)
    requires Holds(data, i, EncodeBytes(b)) && |b| < 0x1_0000_0000_0000_0000
    ensures i < |data| && Parse(data, i) == Ok((Bytes(b), i + |EncodeBytes(b)|))
  {
    var len := Digits(|b|);
    HoldsParts(data, i, len + [COLON], b);
    FindHeld(data, i, len, COLON);
    HoldsAt(data, i, len);
    assert ParseUsize(len) == Some(|b|);
  }

  lemma IntReadsAt(data: seq<Byte>, i: nat, n: int)
    requires InI64(n) && Holds(data, i, Encode(Int(n)))
    ensures Parse(data, i) == Ok((Int(n), i + |Encode(Int(n))|))
  {
    hide ParseI64, EncodeInt, Find;
    IntReads(n);
    assert Encode(Int(n)) == [TAG_INT] + (EncodeInt(n) + [END]);
    HoldsParts(data, i, [TAG_INT], EncodeInt(n) + [END]);
    HoldsAt(data, i, data[i..i + 1]);
    FindHeld(data, i + 1, EncodeInt(n), END);
  }

  /** Any value's encoding, wherever it stands and whatever follows it, is read back as that value, up to exactly its
      end. */
  lemma {:induction false} RoundTrip(data: seq<Byte>, i: nat, v: Value)
    requires Representable(v) && Holds(data, i, Encode(v))
    ensures Parse(data, i) == Ok((v, i + |Encode(v)|))
    decreases v, 1
  {
    hide Parse, ParseItems, ParseEntries, EncodeInt, EncodeBytes, EncodeItems, EncodeEntries, Holds;
    match v
    case Int(n) =>
      IntReadsAt(data, i, n);
    case Bytes(b) =>
      BytesRead(data, i, b);
    case List(items) =>
      assert Encode(v) == [TAG_LIST] + (EncodeItems(items) + [END]);
      HoldsParts(data, i, [TAG_LIST], EncodeItems(items) + [END]);
      HoldsAt(data, i, [TAG_LIST]);
      ItemsRoundTrip(data, i + 1, items);
      ListRead(data, i, items, i + |Encode(v)|);
    case Dict(entries) =>
      assert Encode(v) == [TAG_DICT] + (EncodeEntries(entries) + [END]);
      HoldsParts(data, i, [TAG_DICT], EncodeEntries(entries) + [END]);
      HoldsAt(data, i, [TAG_DICT]);
      EntriesRoundTrip(data, i + 1, entries);
      DictRead(data, i, entries, i + |Encode(v)|);
  }

  lemma ListRead(data: seq<Byte>, i: nat, items: seq<Value>, end: nat)
    requires i < |data| && data[i] == TAG_LIST && ParseItems(data, i + 1) == Ok((items, end))
    ensures Parse(data, i) == Ok((List(items), end))
  {
    hide ParseItems;
  }

  lemma DictRead(data: seq<Byte>, i: nat, entries: seq<Entry>, end: nat)
    requires i < |data| && data[i] == TAG_DICT && ParseEntries(data, i + 1) == Ok((entries, end))
    ensures Parse(data, i) == Ok((Dict(entries), end))
  {
    hide ParseEntries;
  }

  lemma {:induction false} ItemsRoundTrip(data: seq<Byte>, i: nat, items: seq<Value>)
    requires forall k :: 0 <= k < |items| ==> Representable(items[k])
    requires Holds(data, i, EncodeItems(items) + [END])
    ensures ParseItems(data, i) == Ok((items, i + |EncodeItems(items)| + 1))
    decreases items, 0
  {
    hide Parse, Encode, EncodeBytes, Holds;
    if items == [] {
      assert EncodeItems(items) + [END] == [END];
      HoldsAt(data, i, [END]);
    } else {
      var first, rest := Encode(items[0]), EncodeItems(items[1..]);
      assert EncodeItems(items) + [END] == first + (rest + [END]);
      HoldsParts(data, i, first, rest + [END]);
      HoldsAt(data, i, first);
      RoundTrip(data, i, items[0]);
      ItemsRoundTrip(data, i + |first|, items[1..]);
      assert [items[0]] + items[1..] == items;
    }
  }

  lemma {:induction false} EntriesRoundTrip(data: seq<Byte>, i: nat, entries: seq<Entry>)
    requires forall k :: 0 <= k < |entries| ==> RepresentableEntry(entries[k])
    requires Holds(data, i, EncodeEntries(entries) + [END])
    ensures ParseEntries(data, i) == Ok((entries, i + |EncodeEntries(entries)| + 1))
    decreases entries, 0
  {
    hide Parse, Encode, EncodeBytes, Holds;
    if entries == [] {
      assert EncodeEntries(entries) + [END] == [END];
      HoldsAt(data, i, [END]);
    } else {
      hide ParseEntries, EncodeEntries, Representable;
      var e, key, value := entries[0], EncodeBytes(entries[0].key), Encode(entries[0].value);
      EntryParts(data, i, entries);
      BytesRead(data, i, e.key);
      RoundTrip(data, i + |key|, e.value);
      EntriesRoundTrip(data, i + |key| + |value|, entries[1..]);
      HoldsAt(data, i, key);
      EntryRead(data, i, e, i + |key|, i + |key| + |value|, entries[1..], i + |EncodeEntries(entries)| + 1);
      assert [e] + entries[1..] == entries;
    }
  }

  lemma EntryRead(data: seq<Byte>, i: nat, e: Entry, j: nat, k: nat, rest: seq<Entry>, end: nat)
    requires i < |data| && data[i] != END
    requires Parse(data, i) == Ok((Bytes(e.key), j)) && Parse(data, j) == Ok((e.value, k))
    requires ParseEntries(data, k) == Ok((rest, end))
    ensures ParseEntries(data, i) == Ok(([e] + rest, end))
  {
    hide Parse;
  }

  lemma EntryParts(data: seq<Byte>, i: nat, entries: seq<Entry>)
    requires entries != [] && Holds(data, i, EncodeEntries(entries) + [END])
    ensures var key, value, rest := EncodeBytes(entries[0].key), Encode(entries[0].value), EncodeEntries(entries[1..]);
            && Holds(data, i, key) && Holds(data, i + |key|, value) && Holds(data, i + |key| + |value|, rest + [END])
            && |EncodeEntries(entries)| == |key| + |value| + |rest|
  {
    hide Encode, EncodeBytes, Holds;
    var key, value, rest := EncodeBytes(entries[0].key), Encode(entries[0].value), EncodeEntries(entries[1..]);
    assert EncodeEntries(entries) + [END] == key + (value + (rest + [END]));
    HoldsParts(data, i, key, value + (rest + [END]));
    HoldsParts(data, i + |key|, value, rest + [END]);
  }

  /** No encoding is the beginning of another, so a stream of values can be cut up in one way only. */
  lemma EncodingsArePrefixFree(v: Value, w: Value, s: seq<Byte>, t: seq<Byte>)
    requires Representable(v) && Representable(w)
    requires Encode(v) + s == Encode(w) + t
    ensures v == w && s == t
  {
    var data := Encode(v) + s;
    RoundTrip(data, 0, v);
    RoundTrip(data, 0, w);
    assert s == data[|Encode(v)|..] == t;
  }
}
