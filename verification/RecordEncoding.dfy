// The hand-made record encoding behind RecordHash, what it determines, and the
// streaming collector of leaf hashes.

module RecordEncoding {
  import opened Sequences
  import opened Decimal
  import opened Ordering
  import opened Merkle

  // The dynamic types that serializeValue distinguishes.  Text produced by the float,
  // time and %v formatting of the standard library is carried as it comes.
  datatype Value =
    | StringV(s: string)
    | IntV(n: int)
    | Int64V(n64: int)
    | FloatV(text: string)
    | BoolV(b: bool)
    | TimeV(rfc3339: string)
    | OtherV(shown: string)

  type Fields = map<string, Value>

  function SerializeValue(v: Value): string {
    match v
    case StringV(s) => s
    case IntV(n) => Itoa(n)
    case Int64V(n) => Itoa(n)
    case FloatV(text) => text
    case BoolV(b) => if b then "true" else "false"
    case TimeV(text) => text
    case OtherV(text) => text
  }

  // What can be read off the text of a value: the text it carries, or the number, or the
  // truth value.
  lemma TextOfValue(v: Value)
    ensures v.StringV? ==> SerializeValue(v) == v.s
    ensures v.IntV? ==> SerializeValue(v) != "" && ParseInt(SerializeValue(v)) == v.n
    ensures v.Int64V? ==> SerializeValue(v) != "" && ParseInt(SerializeValue(v)) == v.n64
    ensures v.FloatV? ==> SerializeValue(v) == v.text
    ensures v.BoolV? ==> SerializeValue(v) == (if v.b then "true" else "false")
    ensures v.TimeV? ==> SerializeValue(v) == v.rfc3339
    ensures v.OtherV? ==> SerializeValue(v) == v.shown
  {
    if v.IntV? {
      ItoaReadsBack(v.n);
    } else if v.Int64V? {
      ItoaReadsBack(v.n64);
    }
  }

  predicate SameType(v: Value, w: Value) {
    && (v.StringV? <==> w.StringV?) && (v.IntV? <==> w.IntV?) && (v.Int64V? <==> w.Int64V?)
    && (v.FloatV? <==> w.FloatV?) && (v.BoolV? <==> w.BoolV?) && (v.TimeV? <==> w.TimeV?)
    && (v.OtherV? <==> w.OtherV?)
  }

  // Within one type the text determines the value.
  lemma TextDeterminesValue(v: Value, w: Value)
    requires SameType(v, w)
    ensures SerializeValue(v) == SerializeValue(w) <==> v == w
  {
    TextOfValue(v);
    TextOfValue(w);
  }

  function EncodeField(k: string, v: Value): string { k + ":" + SerializeValue(v) + "|" }

  function EncodeFields(keys: seq<string>, fields: Fields): string
    requires forall k :: k in keys ==> k in fields
  {
    if keys == [] then "" else EncodeField(keys[0], fields[keys[0]]) + EncodeFields(keys[1..], fields)
  }

  function EncodeId(id: int): string { "id:" + Itoa(id) + "|" }

  lemma EnumerationMembers(ks: seq<string>, keys: set<string>)
    requires Enumerates(ks, keys)
    ensures forall k :: k in Sort(StringLe, ks) <==> k in keys
  {
    StringOrder();
    SortSorts(StringLe, ks);
    forall k
      ensures k in Sort(StringLe, ks) <==> k in keys
    {
      assert k in Sort(StringLe, ks) <==> k in multiset(Sort(StringLe, ks));
    }
  }

  // The encoding when the map is enumerated in the order ks.
  ghost function EncodeAlong(id: int, fields: Fields, ks: seq<string>): string
    requires Enumerates(ks, fields.Keys)
  {
    EnumerationMembers(ks, fields.Keys);
    EncodeId(id) + EncodeFields(Sort(StringLe, ks), fields)
  }

  // The iteration order of the field map leaves no trace in the encoding.
  lemma IterationOrderIrrelevant(id: int, fields: Fields, ks: seq<string>, ks': seq<string>)
    requires Enumerates(ks, fields.Keys) && Enumerates(ks', fields.Keys)
    ensures EncodeAlong(id, fields, ks) == EncodeAlong(id, fields, ks')
  {
    StringOrder();
    SortForgetsOrder(StringLe, ks, ks');
  }

  ghost function Encode(id: int, fields: Fields): string {
    EncodeAlong(id, fields, SomeOrder(fields.Keys))
  }

  ghost function RecordDigest(h: HashFunc, id: int, fields: Fields): string { Digest(h, Encode(id, fields)) }

  // The keys arrive in whatever order the runtime iterates the map: mapOrder.
  method RecordHash(h: HashFunc, recordID: int, fields: Fields, mapOrder: seq<string>) returns (r: string)
    requires Enumerates(mapOrder, fields.Keys)
    ensures r == RecordDigest(h, recordID, fields) == Hex(h(Encode(recordID, fields)))
  {
    var keys: seq<string> := [];
    for i := 0 to |mapOrder|
      invariant keys == mapOrder[..i]
    {
      keys := keys + [mapOrder[i]];
    }
    assert keys == mapOrder;
    EnumerationMembers(mapOrder, fields.Keys);
    keys := Sort(StringLe, keys);
    var combined := Combine(recordID, fields, keys);
    IterationOrderIrrelevant(recordID, fields, mapOrder, SomeOrder(fields.Keys));
    r := Digest(h, combined);
  }

  method Combine(recordID: int, fields: Fields, keys: seq<string>) returns (combined: string)
    requires forall k :: k in keys ==> k in fields
    ensures combined == EncodeId(recordID) + EncodeFields(keys, fields)
  {
    combined := EncodeId(recordID);
    for i := 0 to |keys|
      invariant combined + EncodeFields(keys[i..], fields) == EncodeId(recordID) + EncodeFields(keys, fields)
    {
      assert keys[i..][1..] == keys[i + 1..];
      combined := combined + EncodeField(keys[i], fields[keys[i]]);
    }
    assert keys[|keys|..] == [];
  }

  // ------------------------------------------------- what the encoding determines

  predicate NoBar(s: string) { '|' !in s }

  // Text up to the first '|' can be read back.
  lemma {:induction false} BarSplit(a: string, x: string, b: string, y: string)
    requires NoBar(a) && NoBar(b)
    requires a + "|" + x == b + "|" + y
    ensures a == b && x == y
  {
    var l, r := a + "|" + x, b + "|" + y;
    assert l[0] == (if a == [] then '|' else a[0]);
    assert r[0] == (if b == [] then '|' else b[0]);
    if a == [] {
      assert l[1..] == x && r[1..] == y;
    } else {
      assert l[1..] == a[1..] + "|" + x && r[1..] == b[1..] + "|" + y;
      BarSplit(a[1..], x, b[1..], y);
      assert a == [a[0]] + a[1..] && b == [b[0]] + b[1..];
    }
  }

  lemma IdPrefix(id: int, x: string, id': int, y: string)
    requires EncodeId(id) + x == EncodeId(id') + y
    ensures id == id' && x == y
  {
    var l, r := EncodeId(id) + x, EncodeId(id') + y;
    assert l[3..] == Itoa(id) + "|" + x && r[3..] == Itoa(id') + "|" + y;
    BarSplit(Itoa(id), x, Itoa(id'), y);
    ItoaInjective(id, id');
  }

  // Different ids never share an encoding, whatever the fields.
  lemma EncodingDeterminesId(id: int, f: Fields, id': int, g: Fields)
    requires Encode(id, f) == Encode(id', g)
    ensures id == id'
  {
    var ks, ks' := SomeOrder(f.Keys), SomeOrder(g.Keys);
    EnumerationMembers(ks, f.Keys);
    EnumerationMembers(ks', g.Keys);
    IdPrefix(id, EncodeFields(Sort(StringLe, ks), f), id', EncodeFields(Sort(StringLe, ks'), g));
  }

  ghost predicate SameText(f: Fields, g: Fields)
    requires f.Keys == g.Keys
  {
    forall k :: k in f ==> SerializeValue(f[k]) == SerializeValue(g[k])
  }

  ghost predicate SameTypes(f: Fields, g: Fields)
    requires f.Keys == g.Keys
  {
    forall k :: k in f ==> SameType(f[k], g[k])
  }

  lemma SameTextsSameFields(f: Fields, g: Fields)
    requires f.Keys == g.Keys && SameTypes(f, g)
    ensures SameText(f, g) <==> f == g
  {
    forall k | k in f
      ensures SerializeValue(f[k]) == SerializeValue(g[k]) <==> f[k] == g[k]
    {
      TextDeterminesValue(f[k], g[k]);
    }
  }

  // The keys in the order in which they are encoded.
  ghost function SortedKeys(f: Fields): (ks: seq<string>)
    ensures forall k :: k in ks <==> k in f
  {
    EnumerationMembers(SomeOrder(f.Keys), f.Keys);
    Sort(StringLe, SomeOrder(f.Keys))
  }

  predicate Plain(k: string) { '|' !in k && ':' !in k }

  ghost predicate PlainKeys(f: Fields) { forall k :: k in f ==> Plain(k) }

  // The characters that end one value and start the one of key k.
  function Separator(k: string): string { "|" + k + ":" }

  predicate OccursAt(s: string, p: string, i: nat) { i + |p| <= |s| && s[i..i + |p|] == p }

  predicate Contains(s: string, p: string) { exists i :: 0 <= i <= |s| && OccursAt(s, p, i) }

  // The value of key i contains the separator of the next key, or, unless it is the first
  // value, that of its own key.
  predicate StraddlesAt(keys: seq<string>, f: Fields, i: nat)
    requires i < |keys| && keys[i] in f
  {
    || (i + 1 < |keys| && Contains(SerializeValue(f[keys[i]]), Separator(keys[i + 1])))
    || (i > 0 && Contains(SerializeValue(f[keys[i]]), Separator(keys[i])))
  }

  ghost predicate Straddles(f: Fields) {
    exists i :: 0 <= i < |SortedKeys(f)| && StraddlesAt(SortedKeys(f), f, i)
  }

  lemma ContainsMiddle(a: string, p: string, b: string)
    ensures Contains(a + p + b, p)
  {
    assert OccursAt(a + p + b, p, |a|);
  }

  lemma EncodeCons(keys: seq<string>, f: Fields)
    requires keys != [] && forall k :: k in keys ==> k in f
    ensures EncodeFields(keys, f) == keys[0] + ":" + (SerializeValue(f[keys[0]]) + "|" + EncodeFields(keys[1..], f))
  {
  }

  lemma BarNotBefore(k: string, y: string, x: string, rest: string)
    requires Plain(k) && k + ":" + y == x + "|" + rest
    ensures |x| > |k|
  {
    var l := k + ":" + y;
    assert l[|x|] == (x + "|" + rest)[|x|] == '|';
    assert forall i :: 0 <= i < |k| ==> l[i] == k[i] != '|';
    assert l[|k|] == ':';
  }

  // Key text and colon at the head of x + "|" + rest lie within x.
  lemma HeadWithin(k: string, y: string, x: string, rest: string)
    requires Plain(k) && k + ":" + y == x + "|" + rest
    ensures |x| > |k| && x == k + ":" + x[|k| + 1..] && y == x[|k| + 1..] + "|" + rest
  {
    BarNotBefore(k, y, x, rest);
    var l, r := k + ":" + y, x + "|" + rest;
    assert x == r[..|x|] == l[..|x|];
    assert l[..|k| + 1] == k + ":";
    assert y == l[|k| + 1..] == r[|k| + 1..];
  }

  // One text, two cuts at a '|': the same cut, or one of the two is earlier.
  lemma TwoCuts(a: string, x: string, b: string, y: string)
    requires a + "|" + x == b + "|" + y
    ensures |a| == |b| ==> a == b && x == y
    ensures |a| > |b| ==> a == b + "|" + a[|b| + 1..] && a[|b| + 1..] + "|" + x == y
    ensures |a| < |b| ==> b == a + "|" + b[|a| + 1..] && b[|a| + 1..] + "|" + y == x
  {
    var l, r := a + "|" + x, b + "|" + y;
    if |a| == |b| {
      assert a == l[..|a|] == r[..|a|] == b;
      assert x == l[|a| + 1..] == y;
    } else if |a| > |b| {
      CutEarlier(a, x, b, y);
    } else {
      CutEarlier(b, y, a, x);
    }
  }

  lemma CutEarlier(a: string, x: string, b: string, y: string)
    requires a + "|" + x == b + "|" + y && |a| > |b|
    ensures a == b + "|" + a[|b| + 1..] && a[|b| + 1..] + "|" + x == y
  {
    var l, r := a + "|" + x, b + "|" + y;
    assert a == l[..|a|] == r[..|a|];
    assert r[..|b| + 1] == b + "|";
    assert a[..|b| + 1] == b + "|";
    assert y == r[|b| + 1..] == l[|b| + 1..];
  }

  ghost predicate DistinctPlain(keys: seq<string>) {
    Distinct(keys) && forall i :: 0 <= i < |keys| ==> Plain(keys[i])
  }

  lemma DistinctTail(keys: seq<string>)
    requires keys != [] && DistinctPlain(keys)
    ensures DistinctPlain(keys[1..]) && (|keys| > 1 ==> keys[1] != keys[0])
  {
    assert forall i :: 0 <= i < |keys[1..]| ==> keys[1..][i] == keys[i + 1];
  }

  lemma ColonNotBefore(k: string, x: string, l: string, y: string)
    requires Plain(k) && k + ":" + x == l + ":" + y
    ensures |k| <= |l|
  {
    var s := k + ":" + x;
    assert s[|l|] == (l + ":" + y)[|l|] == ':';
    assert forall i :: 0 <= i < |k| ==> s[i] == k[i] != ':';
  }

  // A plain key is read off the head of a field.
  lemma SameHead(k: string, x: string, l: string, y: string)
    requires Plain(k) && Plain(l) && k + ":" + x == l + ":" + y
    ensures k == l
  {
    ColonNotBefore(k, x, l, y);
    ColonNotBefore(l, y, k, x);
    assert k == (k + ":" + x)[..|k|] == (l + ":" + y)[..|l|] == l;
  }

  // How a reading that starts key k later by x goes on: its separator occurs in the value v,
  // or the whole value is skipped, or v ends where the later reading starts.
  datatype Skip = Inside | Beyond(x: string) | AtEnd

  lemma SkipField(k: string, v: string, F: string, x: string, w: string, G: string) returns (r: Skip)
    requires Plain(k) && k + ":" + (v + "|" + F) == x + "|" + (k + ":" + (w + "|" + G))
    ensures r.Inside? ==> Contains(v, Separator(k))
    ensures r.Beyond? ==> F != "" && F == r.x + "|" + G
    ensures r.AtEnd? ==> F == k + ":" + (w + "|" + G)
  {
    var H := k + ":" + (w + "|" + G);
    HeadWithin(k, v + "|" + F, x, H);
    var y := x[|k| + 1..];
    TwoCuts(v, F, y, H);
    if |v| > |y| {
      SeparatorInside(k, v, F, y, w + "|" + G);
      r := Inside;
    } else if |v| < |y| {
      r := Beyond(y[|v| + 1..] + "|" + k + ":" + w);
      assert F == y[|v| + 1..] + "|" + H;
    } else {
      r := AtEnd;
    }
  }

  lemma SeparatorInside(k: string, v: string, F: string, y: string, u: string)
    requires Plain(k) && |v| > |y| && v == y + "|" + v[|y| + 1..] && v[|y| + 1..] + "|" + F == k + ":" + u
    ensures Contains(v, Separator(k))
  {
    var z := v[|y| + 1..];
    HeadWithin(k, u, z, F);
    assert v == y + Separator(k) + z[|k| + 1..];
    ContainsMiddle(y, Separator(k), z[|k| + 1..]);
  }

  // A second reading that starts the first key later than f does needs a value of f that
  // contains the separator of its own key.
  lemma {:induction false} LaterReading(keys: seq<string>, f: Fields, g: Fields, x: string) returns (i: nat)
    requires DistinctPlain(keys) && keys != [] && forall k :: k in keys ==> k in f && k in g
    requires EncodeFields(keys, f) == x + "|" + EncodeFields(keys, g)
    ensures i < |keys| && Contains(SerializeValue(f[keys[i]]), Separator(keys[i]))
  {
    var rest := keys[1..];
    DistinctTail(keys);
    var r := SkipFirst(keys, f, g, x);
    if r.Inside? {
      i := 0;
    } else {
      var j := LaterReading(rest, f, g, r.x);
      i := j + 1;
      assert keys[i] == rest[j];
    }
  }

  lemma SkipFirst(keys: seq<string>, f: Fields, g: Fields, x: string) returns (r: Skip)
    requires DistinctPlain(keys) && keys != [] && forall k :: k in keys ==> k in f && k in g
    requires EncodeFields(keys, f) == x + "|" + EncodeFields(keys, g)
    ensures r.Inside? || r.Beyond?
    ensures r.Inside? ==> Contains(SerializeValue(f[keys[0]]), Separator(keys[0]))
    ensures r.Beyond? ==> keys[1..] != [] && EncodeFields(keys[1..], f) == r.x + "|" + EncodeFields(keys[1..], g)
  {
    var k, rest := keys[0], keys[1..];
    var v, w := SerializeValue(f[k]), SerializeValue(g[k]);
    var F, G := EncodeFields(rest, f), EncodeFields(rest, g);
    EncodeCons(keys, f);
    EncodeCons(keys, g);
    r := SkipField(k, v, F, x, w, G);
    if r.AtEnd? {
      DistinctTail(keys);
      HeadField(rest, f, k, w + "|" + G);
      assert false;
    }
  }

  // A list of fields that starts like a field of key k starts with the field of key k.
  lemma HeadField(keys: seq<string>, f: Fields, k: string, u: string)
    requires (forall l :: l in keys ==> l in f) && Plain(k) && EncodeFields(keys, f) == k + ":" + u
    requires keys != [] ==> Plain(keys[0])
    ensures keys != [] && keys[0] == k
  {
    assert EncodeFields(keys, f) != "";
    EncodeCons(keys, f);
    var x := SerializeValue(f[keys[0]]) + "|" + EncodeFields(keys[1..], f);
    SameHead(keys[0], x, k, u);
  }

  // Two readings of the same text whose first values differ: the first value of f contains
  // the separator of the next key, or g reads on later.
  lemma FirstDiffers(rest: seq<string>, f: Fields, g: Fields, v: string, w: string) returns (x: string)
    requires (forall l :: l in rest ==> l in f && l in g) && (rest != [] ==> Plain(rest[0]))
    requires v + "|" + EncodeFields(rest, f) == w + "|" + EncodeFields(rest, g) && v != w
    ensures rest != []
    ensures Contains(v, Separator(rest[0])) || EncodeFields(rest, f) == x + "|" + EncodeFields(rest, g)
  {
    var F, G := EncodeFields(rest, f), EncodeFields(rest, g);
    TwoCuts(v, F, w, G);
    if |v| > |w| {
      EncodeCons(rest, g);
      var u := SerializeValue(g[rest[0]]) + "|" + EncodeFields(rest[1..], g);
      SeparatorInside(rest[0], v, F, w, u);
      x := "";
    } else {
      x := w[|v| + 1..];
    }
  }

  // Two readings of one text with different values: some value of the first straddles.
  lemma {:induction false} OtherReading(keys: seq<string>, f: Fields, g: Fields) returns (i: nat)
    requires DistinctPlain(keys) && forall k :: k in keys ==> k in f && k in g
    requires EncodeFields(keys, f) == EncodeFields(keys, g)
    requires exists k :: k in keys && SerializeValue(f[k]) != SerializeValue(g[k])
    ensures i < |keys| && StraddlesAt(keys, f, i)
  {
    var k, rest := keys[0], keys[1..];
    var v, w := SerializeValue(f[k]), SerializeValue(g[k]);
    var F, G := EncodeFields(rest, f), EncodeFields(rest, g);
    EncodeCons(keys, f);
    EncodeCons(keys, g);
    DistinctTail(keys);
    CutHead(k, v + "|" + F, w + "|" + G);
    if v == w {
      TwoCuts(v, F, w, G);
      DifferInRest(keys, f, g);
      var j := OtherReading(rest, f, g);
      i := j + 1;
      assert keys[i] == rest[j];
      StraddlesInRest(keys, f, j);
    } else {
      var x := FirstDiffers(rest, f, g, v, w);
      if Contains(v, Separator(rest[0])) {
        i := 0;
      } else {
        var j := LaterReading(rest, f, g, x);
        i := j + 1;
      }
    }
  }

  lemma DifferInRest(keys: seq<string>, f: Fields, g: Fields)
    requires keys != [] && forall k :: k in keys ==> k in f && k in g
    requires SerializeValue(f[keys[0]]) == SerializeValue(g[keys[0]])
    requires exists k :: k in keys && SerializeValue(f[k]) != SerializeValue(g[k])
    ensures exists k :: k in keys[1..] && SerializeValue(f[k]) != SerializeValue(g[k])
  {
    var k :| k in keys && SerializeValue(f[k]) != SerializeValue(g[k]);
    assert keys == [keys[0]] + keys[1..];
  }

  lemma StraddlesInRest(keys: seq<string>, f: Fields, j: nat)
    requires j + 1 < |keys| && keys[j + 1] in f && StraddlesAt(keys[1..], f, j)
    ensures StraddlesAt(keys, f, j + 1)
  {
    assert keys[1..][j] == keys[j + 1];
    assert j + 1 < |keys[1..]| ==> keys[1..][j + 1] == keys[j + 2];
  }

  lemma CutHead(k: string, x: string, y: string)
    requires k + ":" + x == k + ":" + y
    ensures x == y
  {
    assert (k + ":" + x)[|k| + 1..] == x && (k + ":" + y)[|k| + 1..] == y;
  }

  lemma SortedKeysDistinct(f: Fields)
    ensures Distinct(SortedKeys(f))
  {
    var ks := SomeOrder(f.Keys);
    EnumerationDistinct(ks, f.Keys);
    StringOrder();
    SortSorts(StringLe, ks);
    DistinctPermutation(ks, SortedKeys(f));
  }

  lemma SameKeysSameOrder(f: Fields, g: Fields)
    requires f.Keys == g.Keys
    ensures SortedKeys(f) == SortedKeys(g)
  {
  }

  // ---- building the second reading

  lemma {:induction false} EncodeSplit(a: seq<string>, b: seq<string>, f: Fields)
    requires forall k :: k in a + b ==> k in f
    ensures forall k :: k in a ==> k in f
    ensures forall k :: k in b ==> k in f
    ensures EncodeFields(a + b, f) == EncodeFields(a, f) + EncodeFields(b, f)
  {
    assert forall k :: k in a || k in b ==> k in a + b;
    if a == [] {
      assert a + b == b;
    } else {
      assert (a + b)[0] == a[0] && (a + b)[1..] == a[1..] + b;
      EncodeSplit(a[1..], b, f);
      ConcatAssoc(EncodeField(a[0], f[a[0]]), EncodeFields(a[1..], f), EncodeFields(b, f));
    }
  }

  lemma EncodePair(k: string, l: string, f: Fields)
    requires k in f && l in f
    ensures EncodeFields([k, l], f) == EncodeField(k, f[k]) + EncodeField(l, f[l])
  {
    assert [k, l][1..] == [l] && [l][1..] == [];
    EncodeCons([l], f);
  }

  lemma {:induction false} EncodeAgree(keys: seq<string>, f: Fields, g: Fields)
    requires forall k :: k in keys ==> k in f && k in g && f[k] == g[k]
    ensures EncodeFields(keys, f) == EncodeFields(keys, g)
  {
    if keys != [] {
      EncodeAgree(keys[1..], f, g);
    }
  }

  lemma EncodeAround(keys: seq<string>, f: Fields, j: nat)
    requires j + 1 < |keys| && forall k :: k in keys ==> k in f
    ensures forall k :: k in keys[..j] || k in keys[j + 2..] ==> k in keys
    ensures EncodeFields(keys, f) ==
              EncodeFields(keys[..j], f) + (EncodeField(keys[j], f[keys[j]]) + EncodeField(keys[j + 1], f[keys[j + 1]])
                                            + EncodeFields(keys[j + 2..], f))
  {
    var a, k, l, b := keys[..j], keys[j], keys[j + 1], keys[j + 2..];
    assert keys == a + ([k, l] + b);
    EncodeSplit(a, [k, l] + b, f);
    EncodeSplit([k, l], b, f);
    EncodePair(k, l, f);
  }

  lemma Elsewhere(keys: seq<string>, j: nat)
    requires Distinct(keys) && j + 1 < |keys|
    ensures forall k :: k in keys[..j] || k in keys[j + 2..] ==> k in keys && k != keys[j] && k != keys[j + 1]
  {
  }

  // Moving text across the boundary between two neighbouring values keeps the encoding.
  lemma MoveBoundary(keys: seq<string>, f: Fields, g: Fields, j: nat, u: string, v: string, w: string)
    requires Distinct(keys) && j + 1 < |keys| && f.Keys == g.Keys && forall k :: k in keys ==> k in f
    requires forall k :: k in keys && k != keys[j] && k != keys[j + 1] ==> f[k] == g[k]
    requires SerializeValue(f[keys[j]]) == u + Separator(keys[j + 1]) + v && SerializeValue(f[keys[j + 1]]) == w
    requires SerializeValue(g[keys[j]]) == u && SerializeValue(g[keys[j + 1]]) == v + Separator(keys[j + 1]) + w
    ensures EncodeFields(keys, f) == EncodeFields(keys, g)
  {
    EncodeAround(keys, f, j);
    EncodeAround(keys, g, j);
    Elsewhere(keys, j);
    EncodeAgree(keys[..j], f, g);
    EncodeAgree(keys[j + 2..], f, g);
    SamePair(keys[j], keys[j + 1], f, g, u, v, w);
  }

  lemma SamePair(k: string, l: string, f: Fields, g: Fields, u: string, v: string, w: string)
    requires k in f && k in g && l in f && l in g
    requires SerializeValue(f[k]) == u + Separator(l) + v && SerializeValue(f[l]) == w
    requires SerializeValue(g[k]) == u && SerializeValue(g[l]) == v + Separator(l) + w
    ensures EncodeField(k, f[k]) + EncodeField(l, f[l]) == EncodeField(k, g[k]) + EncodeField(l, g[l])
  {
    TextAcrossBoundary(k, l, u, v, w);
    assert u + Separator(l) + v == u + "|" + l + ":" + v;
    assert v + Separator(l) + w == v + "|" + l + ":" + w;
  }

  lemma ContainsSplit(s: string, p: string) returns (a: string, b: string)
    requires Contains(s, p)
    ensures s == a + p + b
  {
    var i :| 0 <= i <= |s| && OccursAt(s, p, i);
    a, b := s[..i], s[i + |p|..];
  }

  lemma SecondReading(f: Fields, i: nat) returns (g: Fields)
    requires i < |SortedKeys(f)| && StraddlesAt(SortedKeys(f), f, i)
    ensures g.Keys == f.Keys && !SameText(f, g)
    ensures EncodeFields(SortedKeys(f), f) == EncodeFields(SortedKeys(f), g)
  {
    var keys := SortedKeys(f);
    SortedKeysDistinct(f);
    var k := keys[i];
    if i + 1 < |keys| && Contains(SerializeValue(f[k]), Separator(keys[i + 1])) {
      var l := keys[i + 1];
      var u, v := ContainsSplit(SerializeValue(f[k]), Separator(l));
      var w := SerializeValue(f[l]);
      g := f[k := StringV(u)][l := StringV(v + Separator(l) + w)];
      MoveBoundary(keys, f, g, i, u, v, w);
      assert |SerializeValue(g[k])| < |SerializeValue(f[k])|;
    } else {
      var j := keys[i - 1];
      var v, w := ContainsSplit(SerializeValue(f[k]), Separator(k));
      var u := SerializeValue(f[j]);
      g := f[j := StringV(u + Separator(k) + v)][k := StringV(w)];
      MoveBoundary(keys, g, f, i - 1, u, v, w);
      assert |SerializeValue(g[k])| < |SerializeValue(f[k])|;
    }
  }

  // Over keys without '|' and ':': another record over the same keys has the same encoding
  // exactly when some value contains the separator of its own or the next key.
  lemma AmbiguousExactlyWhenStraddling(id: int, f: Fields)
    requires PlainKeys(f)
    ensures (exists g: Fields :: g.Keys == f.Keys && !SameText(f, g) && Encode(id, f) == Encode(id, g)) <==>
              Straddles(f)
  {
    var keys := SortedKeys(f);
    SortedKeysDistinct(f);
    if g: Fields :| g.Keys == f.Keys && !SameText(f, g) && Encode(id, f) == Encode(id, g) {
      SameKeysSameOrder(f, g);
      IdPrefix(id, EncodeFields(keys, f), id, EncodeFields(keys, g));
      var i := OtherReading(keys, f, g);
    }
    if Straddles(f) {
      var i :| 0 <= i < |keys| && StraddlesAt(keys, f, i);
      var g := SecondReading(f, i);
      SameKeysSameOrder(f, g);
    }
  }

  // Over plain keys and a first record that does not straddle, the encoding determines the
  // id and the text of every value; and text is all it depends on.  For values of the same
  // types it determines the record.
  lemma EncodingDeterminesRecord(id: int, f: Fields, id': int, g: Fields)
    requires f.Keys == g.Keys && PlainKeys(f) && !Straddles(f)
    ensures Encode(id, f) == Encode(id', g) <==> id == id' && SameText(f, g)
    ensures SameTypes(f, g) ==> (Encode(id, f) == Encode(id', g) <==> id == id' && f == g)
  {
    if SameTypes(f, g) {
      SameTextsSameFields(f, g);
    }
    if Encode(id, f) == Encode(id', g) {
      EncodingDeterminesId(id, f, id', g);
      AmbiguousExactlyWhenStraddling(id, f);
    }
    if SameText(f, g) {
      SameKeysSameOrder(f, g);
      TextSuffices(SortedKeys(f), f, g);
    }
  }

  ghost predicate BarFree(f: Fields) { forall k :: k in f ==> NoBar(SerializeValue(f[k])) }

  lemma NoBarNoSeparator(s: string, l: string)
    requires NoBar(s)
    ensures !Contains(s, Separator(l))
  {
    forall i | 0 <= i <= |s|
      ensures !OccursAt(s, Separator(l), i)
    {
      if i + |Separator(l)| <= |s| {
        assert s[i..i + |Separator(l)|][0] == s[i] && Separator(l)[0] == '|';
      }
    }
  }

  // Values without '|' never straddle.
  lemma BarFreeDoesNotStraddle(f: Fields)
    requires BarFree(f)
    ensures !Straddles(f)
  {
    forall k, l | k in f
      ensures !Contains(SerializeValue(f[k]), Separator(l))
    {
      NoBarNoSeparator(SerializeValue(f[k]), l);
    }
  }

  lemma {:induction false} TextSuffices(keys: seq<string>, f: Fields, g: Fields)
    requires forall k :: k in keys ==> k in f && k in g && SerializeValue(f[k]) == SerializeValue(g[k])
    ensures EncodeFields(keys, f) == EncodeFields(keys, g)
  {
    if keys != [] {
      TextSuffices(keys[1..], f, g);
    }
  }

  lemma TextAcrossBoundary(k: string, l: string, u: string, v: string, w: string)
    ensures k + ":" + (u + "|" + l + ":" + v) + "|" + (l + ":" + w + "|")
         == k + ":" + u + "|" + (l + ":" + (v + "|" + l + ":" + w) + "|")
  {
  }

  // The five fields that both sides of an audit hash, and their order in the encoding.
  const CORE_FIELDS := {"amount", "created_at", "updated_at", "order_id", "status"}
  const CORE_KEYS := ["amount", "created_at", "order_id", "status", "updated_at"]

  lemma SortedKeysAre(f: Fields, keys: seq<string>)
    requires SortedBy(StringLe, keys) && Enumerates(keys, f.Keys)
    ensures SortedKeys(f) == keys
  {
    StringOrder();
    SortOfSorted(StringLe, keys);
    SortForgetsOrder(StringLe, SomeOrder(f.Keys), keys);
  }

  lemma CoreKeysPlain()
    ensures Plain("amount") && Plain("created_at") && Plain("order_id") && Plain("status") && Plain("updated_at")
  {
  }

  lemma CoreKeysSorted(f: Fields)
    requires f.Keys == CORE_FIELDS
    ensures SortedKeys(f) == CORE_KEYS && PlainKeys(f)
  {
    CoreKeysAscend();
    CoreKeysEnumerate(f.Keys);
    SortedKeysAre(f, CORE_KEYS);
    CoreKeysPlain();
  }

  lemma CoreKeysEnumerate(keys: set<string>)
    requires keys == CORE_FIELDS
    ensures Enumerates(CORE_KEYS, keys)
  {
    assert multiset(CORE_KEYS) == multiset{"amount", "created_at", "order_id", "status", "updated_at"};
    assert multiset(keys) == multiset{"amount", "created_at", "order_id", "status", "updated_at"};
  }

  lemma LessByFirst(a: string, b: string)
    requires a != [] && b != [] && a[0] < b[0]
    ensures StringLe(a, b)
  {
  }

  lemma CoreKeysAscend()
    ensures SortedBy(StringLe, CORE_KEYS)
  {
    forall i, j | 0 <= i < j < |CORE_KEYS|
      ensures StringLe(CORE_KEYS[i], CORE_KEYS[j])
    {
      LessByFirst(CORE_KEYS[i], CORE_KEYS[j]);
    }
  }

  // What is hashed for a record of the five core fields, character by character.
  lemma CoreEncoding(id: int, f: Fields)
    requires f.Keys == CORE_FIELDS
    ensures Encode(id, f) ==
              ("id:" + Itoa(id) + "|")
              + (("amount" + ":" + SerializeValue(f["amount"]) + "|")
                 + (("created_at" + ":" + SerializeValue(f["created_at"]) + "|")
                    + (("order_id" + ":" + SerializeValue(f["order_id"]) + "|")
                       + (("status" + ":" + SerializeValue(f["status"]) + "|")
                          + ("updated_at" + ":" + SerializeValue(f["updated_at"]) + "|")))))
  {
    CoreKeysSorted(f);
    FiveFields("amount", "created_at", "order_id", "status", "updated_at", f);
  }

  lemma FiveFields(a: string, b: string, c: string, d: string, e: string, f: Fields)
    requires a in f && b in f && c in f && d in f && e in f
    ensures EncodeFields([a, b, c, d, e], f) ==
              (a + ":" + SerializeValue(f[a]) + "|")
              + ((b + ":" + SerializeValue(f[b]) + "|")
                 + ((c + ":" + SerializeValue(f[c]) + "|")
                    + ((d + ":" + SerializeValue(f[d]) + "|") + (e + ":" + SerializeValue(f[e]) + "|"))))
  {
    FieldAtHead(a, [b, c, d, e], f);
    FieldAtHead(b, [c, d, e], f);
    FieldAtHead(c, [d, e], f);
    FieldAtHead(d, [e], f);
    FieldAtHead(e, [], f);
    assert [a, b, c, d, e] == [a] + [b, c, d, e] && [b, c, d, e] == [b] + [c, d, e];
    assert [c, d, e] == [c] + [d, e] && [d, e] == [d] + [e] && [e] == [e] + [];
  }

  lemma FieldAtHead(k: string, rest: seq<string>, f: Fields)
    requires k in f && forall l :: l in rest ==> l in f
    ensures EncodeFields([k] + rest, f) == (k + ":" + SerializeValue(f[k]) + "|") + EncodeFields(rest, f)
  {
    assert ([k] + rest)[1..] == rest;
  }

  // An order id that contains "|status:" is enough to make an audited record ambiguous.
  lemma CoreRecordCanBeAmbiguous(id: int, f: Fields, u: string, v: string)
    requires f.Keys == CORE_FIELDS
    requires f["order_id"] == StringV(u + "|status:" + v)
    ensures exists g: Fields :: g.Keys == f.Keys && !SameText(f, g) && Encode(id, f) == Encode(id, g)
  {
    CoreKeysSorted(f);
    assert Separator("status") == "|status:";
    ContainsMiddle(u, Separator("status"), v);
    assert StraddlesAt(SortedKeys(f), f, 2);
    AmbiguousExactlyWhenStraddling(id, f);
  }

  lemma EncodingIsLeafPreimage(id: int, f: Fields)
    ensures LeafPreimage(Encode(id, f))
  {
    assert EncodeId(id)[0] == 'i';
  }

  // ------------------------------------------------------------ StreamingHash

  class StreamingHash {
    const hashFunc: HashFunc
    var leafHashes: seq<string>
    var recordCount: int

    ghost predicate Valid() reads this { recordCount == |leafHashes| }

    constructor (h: HashFunc)
      ensures Valid() && hashFunc == h && leafHashes == []
    {
      hashFunc := h;
      leafHashes := [];
      recordCount := 0;
    }

    method Add(recordID: int, fields: Fields, mapOrder: seq<string>)
      requires Valid() && Enumerates(mapOrder, fields.Keys)
      modifies this
      ensures Valid()
      ensures leafHashes == old(leafHashes) + [RecordDigest(hashFunc, recordID, fields)]
    {
      var d := RecordHash(hashFunc, recordID, fields, mapOrder);
      leafHashes := leafHashes + [d];
      recordCount := recordCount + 1;
    }

    method AddHash(hash: string)
      requires Valid()
      modifies this
      ensures Valid() && leafHashes == old(leafHashes) + [hash]
    {
      leafHashes := leafHashes + [hash];
      recordCount := recordCount + 1;
    }

    method BuildTree() returns (t: MerkleTree)
      requires Valid()
      ensures t.rootHash == TreeRoot(hashFunc, leafHashes) && |t.leaves| == recordCount
    {
      t := NewMerkleTree(hashFunc, leafHashes);
    }

    method Reset()
      requires Valid()
      modifies this
      ensures Valid() && leafHashes == [] && recordCount == 0
    {
      leafHashes := [];
      recordCount := 0;
    }
  }
}
