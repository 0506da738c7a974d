/**
 * The laws that the theorems ask of digests, codecs and JSON text can be met: one written form of JSON from which
 * the value can be told, and an instance of each law built on it.
 */
module Instances {
  import opened Models
  import opened Envelopes
  import opened Detached
  import Derivation
  import Handoff

  // ---- a written form that ends where it ends --------------------------------------------------------

  /** A number in unary with an end mark. */
  function Ones(n: nat): string { if n == 0 then "." else ['1'] + Ones(n - 1) }

  function Whole(n: int): string { if n < 0 then ['-'] + Ones(-n) else ['+'] + Ones(n) }

  function Word(t: string): string { Ones(|t|) + t }

  /** The keys of a map in some order. */
  ghost function Keys(ks: set<string>): (r: seq<string>)
    ensures forall k :: k in r <==> k in ks
  {
    if ks == {} then []
    else
      var k :| k in ks;
      [k] + Keys(ks - {k})
  }

  ghost function Write(j: Json): string
    decreases j, 1, 0
  {
    match j
    case Null => ['n']
    case Bool(flag) => if flag then ['t'] else ['f']
    case Integer(n) => ['i'] + Whole(n)
    case Decimal(bits) => ['d'] + Whole(bits)
    case Text(t) => ['s'] + Word(t)
    case Array(items) => ['a'] + (Ones(|items|) + WriteItems(j, |items|))
    case Object(fields) => ['o'] + (Ones(|Keys(fields.Keys)|) + WriteFields(j, Keys(fields.Keys)))
  }

  ghost function WriteItems(j: Json, n: nat): string
    requires j.Array? && n <= |j.items|
    decreases j, 0, n
  {
    if n == 0 then "" else WriteItems(j, n - 1) + Write(j.items[n - 1])
  }

  ghost predicate AmongFields(j: Json, ks: seq<string>) { j.Object? && forall k | k in ks :: k in j.fields }

  ghost function WriteFields(j: Json, ks: seq<string>): string
    requires AmongFields(j, ks)
    decreases j, 0, |ks|
  {
    if ks == [] then ""
    else
      var init, k := ks[..|ks| - 1], ks[|ks| - 1];
      WriteFields(j, init) + (Word(k) + Write(j.fields[k]))
  }

  // ---- what is written can be told from what follows -------------------------------------------------

  lemma Together(a: string, b: string, c: string)
    ensures (a + b) + c == a + (b + c)
  {
  }

  lemma SameHead(c: char, x: string, d: char, y: string)
    requires [c] + x == [d] + y
    ensures c == d && x == y
  {
    assert ([c] + x)[0] == c && ([d] + y)[0] == d;
    assert ([c] + x)[1..] == x && ([d] + y)[1..] == y;
  }

  lemma {:induction false} OnesSplit(m: nat, n: nat, x: string, y: string)
    requires Ones(m) + x == Ones(n) + y
    ensures m == n && x == y
  {
    if m == 0 || n == 0 {
      assert (Ones(m) + x)[0] == (Ones(n) + y)[0];
      if m == n { SameHead('.', x, '.', y); }
    } else {
      Together(['1'], Ones(m - 1), x);
      Together(['1'], Ones(n - 1), y);
      SameHead('1', Ones(m - 1) + x, '1', Ones(n - 1) + y);
      OnesSplit(m - 1, n - 1, x, y);
    }
  }

  lemma WholeSplits(m: int, n: int, x: string, y: string)
    requires Whole(m) + x == Whole(n) + y
    ensures m == n && x == y
  {
    var a, b := if m < 0 then -m else m, if n < 0 then -n else n;
    var c, d := if m < 0 then '-' else '+', if n < 0 then '-' else '+';
    Together([c], Ones(a), x);
    Together([d], Ones(b), y);
    SameHead(c, Ones(a) + x, d, Ones(b) + y);
    OnesSplit(a, b, x, y);
  }

  lemma WordSplits(s: string, t: string, x: string, y: string)
    requires Word(s) + x == Word(t) + y
    ensures s == t && x == y
  {
    Together(Ones(|s|), s, x);
    Together(Ones(|t|), t, y);
    OnesSplit(|s|, |t|, s + x, t + y);
    assert (s + x)[..|s|] == s && (t + y)[..|s|] == t;
    assert (s + x)[|s|..] == x && (t + y)[|s|..] == y;
  }

  lemma {:induction false} WriteSplits(a: Json, b: Json, x: string, y: string)
    requires Write(a) + x == Write(b) + y
    ensures a == b && x == y
    decreases a, 1, 0
  {
    var u, v := Write(a), Write(b);
    assert u == [u[0]] + u[1..] && v == [v[0]] + v[1..];
    Together([u[0]], u[1..], x);
    Together([v[0]], v[1..], y);
    SameHead(u[0], u[1..] + x, v[0], v[1..] + y);
    match a
    case Null => assert u[1..] == "" == v[1..] && "" + x == x && "" + y == y;
    case Bool(_) => assert u[1..] == "" == v[1..] && "" + x == x && "" + y == y;
    case Integer(n) => WholeSplits(n, b.number, x, y);
    case Decimal(bits) => WholeSplits(bits, b.bits, x, y);
    case Text(t) => WordSplits(t, b.text, x, y);
    case Array(_) => ArraysSplit(a, b, x, y);
    case Object(_) => ObjectsSplit(a, b, x, y);
  }

  lemma {:induction false} ArraysSplit(a: Json, b: Json, x: string, y: string)
    requires a.Array? && b.Array?
    requires (Ones(|a.items|) + WriteItems(a, |a.items|)) + x == (Ones(|b.items|) + WriteItems(b, |b.items|)) + y
    ensures a == b && x == y
    decreases a, 0, |a.items| + 1
  {
    Together(Ones(|a.items|), WriteItems(a, |a.items|), x);
    Together(Ones(|b.items|), WriteItems(b, |b.items|), y);
    OnesSplit(|a.items|, |b.items|, WriteItems(a, |a.items|) + x, WriteItems(b, |b.items|) + y);
    ItemsSplit(a, b, |a.items|, x, y);
    assert a.items == a.items[..|a.items|] == b.items[..|a.items|] == b.items;
  }

  lemma {:induction false} ItemsSplit(a: Json, b: Json, n: nat, x: string, y: string)
    requires a.Array? && b.Array? && n <= |a.items| && n <= |b.items|
    requires WriteItems(a, n) + x == WriteItems(b, n) + y
    ensures a.items[..n] == b.items[..n] && x == y
    decreases a, 0, n
  {
    if n == 0 {
      assert "" + x == x && "" + y == y;
    } else {
      var u, v := Write(a.items[n - 1]), Write(b.items[n - 1]);
      Together(WriteItems(a, n - 1), u, x);
      Together(WriteItems(b, n - 1), v, y);
      ItemsSplit(a, b, n - 1, u + x, v + y);
      WriteSplits(a.items[n - 1], b.items[n - 1], x, y);
      assert a.items[..n] == a.items[..n - 1] + [a.items[n - 1]];
      assert b.items[..n] == b.items[..n - 1] + [b.items[n - 1]];
    }
  }

  lemma {:induction false} ObjectsSplit(a: Json, b: Json, x: string, y: string)
    requires a.Object? && b.Object?
    requires
      var ks, ls := Keys(a.fields.Keys), Keys(b.fields.Keys);
      (Ones(|ks|) + WriteFields(a, ks)) + x == (Ones(|ls|) + WriteFields(b, ls)) + y
    ensures a == b && x == y
    decreases a, 0, |Keys(a.fields.Keys)| + 1
  {
    var ks, ls := Keys(a.fields.Keys), Keys(b.fields.Keys);
    Together(Ones(|ks|), WriteFields(a, ks), x);
    Together(Ones(|ls|), WriteFields(b, ls), y);
    OnesSplit(|ks|, |ls|, WriteFields(a, ks) + x, WriteFields(b, ls) + y);
    FieldsSplit(a, b, ks, ls, x, y);
    assert a.fields.Keys == b.fields.Keys;
    forall k | k in a.fields ensures a.fields[k] == b.fields[k] { assert k in ks; }
    assert a.fields == b.fields;
  }

  ghost predicate AgreeOn(a: Json, b: Json, ks: seq<string>) {
    AmongFields(a, ks) && AmongFields(b, ks) && forall k | k in ks :: a.fields[k] == b.fields[k]
  }

  lemma {:induction false} FieldsSplit(a: Json, b: Json, ks: seq<string>, ls: seq<string>, x: string, y: string)
    requires AmongFields(a, ks) && AmongFields(b, ls) && |ks| == |ls|
    requires WriteFields(a, ks) + x == WriteFields(b, ls) + y
    ensures ks == ls && x == y && AgreeOn(a, b, ks)
    decreases a, 0, |ks|
  {
    if ks == [] {
      assert "" + x == x && "" + y == y;
    } else {
      var k, l := ks[|ks| - 1], ls[|ls| - 1];
      var init, front := ks[..|ks| - 1], ls[..|ls| - 1];
      assert ks == init + [k] && ls == front + [l] && k in ks && l in ls;
      var u, v := Write(a.fields[k]), Write(b.fields[l]);
      Together(WriteFields(a, init), Word(k) + u, x);
      Together(WriteFields(b, front), Word(l) + v, y);
      FieldsSplit(a, b, init, front, (Word(k) + u) + x, (Word(l) + v) + y);
      FieldSplits(k, l, u, v, x, y);
      WriteSplits(a.fields[k], b.fields[l], x, y);
      AgreeOnOneMore(a, b, init, k);
    }
  }

  lemma AgreeOnOneMore(a: Json, b: Json, init: seq<string>, k: string)
    requires AgreeOn(a, b, init) && k in a.fields && k in b.fields && a.fields[k] == b.fields[k]
    ensures AgreeOn(a, b, init + [k])
  {
  }

  lemma FieldSplits(k: string, l: string, u: string, v: string, x: string, y: string)
    requires (Word(k) + u) + x == (Word(l) + v) + y
    ensures k == l && u + x == v + y
  {
    Together(Word(k), u, x);
    Together(Word(l), v, y);
    WordSplits(k, l, u + x, v + y);
  }

  lemma {:induction false} WriteTells(a: Json, b: Json)
    requires Write(a) == Write(b)
    ensures a == b
  {
    WriteSplits(a, b, "", "");
  }

  // ---- the laws have instances -------------------------------------------------------------------------

  ghost function Dump(j: Json): Bytes {
    var s := Write(j);
    seq(|s|, i requires 0 <= i < |s| => s[i] as int)
  }

  ghost function Load(data: Bytes): Json {
    if exists j :: Dump(j) == data then
      var j :| Dump(j) == data;
      j
    else Null
  }

  lemma DumpTells(a: Json, b: Json)
    requires Dump(a) == Dump(b)
    ensures a == b
  {
    var s, t := Write(a), Write(b);
    assert |s| == |Dump(a)| == |Dump(b)| == |t|;
    forall i | 0 <= i < |s| ensures s[i] == t[i] {
      assert Dump(a)[i] == s[i] as int && Dump(b)[i] == t[i] as int;
    }
    WriteTells(a, b);
  }

  /** Some pair of writing and reading JSON bytes loses nothing. */
  lemma TextIsReadBack()
    ensures exists dump: Json -> Bytes, load: Bytes -> Json :: ReadsBack(dump, load)
  {
    var dump: Json -> Bytes := j => Dump(j);
    var load: Bytes -> Json := data => Load(data);
    forall j ensures load(dump(j)) == j {
      assert Dump(j) == dump(j);
      DumpTells(Load(Dump(j)), j);
    }
    assert ReadsBack(dump, load);
  }

  /** Some codec of indexes is faithful. */
  lemma CodecIsFaithful()
    ensures exists codec :: Derivation.Faithful(codec)
  {
    var encode: Fields -> Bytes := f => Dump(Object(f));
    var parse: Bytes -> Option<Fields> := data => if Load(data).Object? then Some(Load(data).fields) else None;
    forall f ensures parse(encode(f)) == Some(f) {
      assert Dump(Object(f)) == encode(f);
      DumpTells(Load(Dump(Object(f))), Object(f));
    }
    assert Derivation.Faithful(Derivation.Codec(encode, parse));
  }

  ghost function WrittenDigest(): Digest { (prefix, payload) => Write(payload) }

  lemma RevisionsTell(source: SourceId, a: Fields, b: Fields)
    requires RevisionId(WrittenDigest(), source, a) == RevisionId(WrittenDigest(), source, b)
    ensures a == b
  {
    var x := Object(map["source_id" := Text(source), "definition" := Object(a)]);
    var y := Object(map["source_id" := Text(source), "definition" := Object(b)]);
    WriteTells(x, y);
    assert x.fields["definition"] == y.fields["definition"];
  }

  /** Some digest and content hash are lawful, so some ids of definitions are injective for every source. */
  lemma IdsAreLawful()
    ensures exists ids :: Handoff.Lawful(ids)
    ensures exists idOf: IdentifySource :: InjectiveEach(idOf)
  {
    var content := CONTENT_PREFIX + seq(HEX_LENGTH, i => '0');
    var ids := Handoff.Ids(WrittenDigest(), (data: Bytes) => content);
    var idOf := Handoff.RevisionIds(ids.digest);
    forall source, a, b | idOf(source)(a) == idOf(source)(b) ensures a == b { RevisionsTell(source, a, b); }
    assert forall source :: Injective(idOf(source));
    assert InjectiveEach(idOf) && Handoff.Lawful(ids);
  }
}
