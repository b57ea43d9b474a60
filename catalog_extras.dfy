/** The extras of a catalog request, `genre=Action&skip=100`: parsed into a plain
    object whose recognised keys carry their text, changed through the genre,
    search and skip setters, and written back in entry order. */
module CatalogExtrasModel {
  import opened Wrappers
  import opened JsText

  /** A value held by the extras object: request text, or the number the skip
      setter stores. */
  datatype ExtraValue = Text(s: string) | Count(n: int)

  /** `${value}` in a template literal. */
  function ValueText(v: ExtraValue): string {
    match v
    case Text(s) => s
    case Count(n) => IntToString(n)
  }

  /** A plain JavaScript object as its entries, in insertion order; a key whose value
      is `undefined` is still a key. */
  type Entries = seq<(string, Option<ExtraValue>)>

  predicate UniqueKeys(e: Entries) {
    forall i, j :: 0 <= i < j < |e| ==> e[i].0 != e[j].0
  }

  /** The position of key `k`, if the object has it. */
  function KeyIndex(e: Entries, k: string): (r: Option<nat>)
    ensures r.Some? ==> r.value < |e| && e[r.value].0 == k
    ensures r.Some? ==> forall i :: 0 <= i < r.value ==> e[i].0 != k
    ensures r.None? ==> forall i :: 0 <= i < |e| ==> e[i].0 != k
  {
    if |e| == 0 then None
    else if e[0].0 == k then Some(0)
    else
      match KeyIndex(e[1..], k)
      case Some(i) => Some(i + 1)
      case None => None
  }

  /** `k in obj ? obj[k] : undefined`. */
  function Get(e: Entries, k: string): Option<ExtraValue> {
    match KeyIndex(e, k)
    case Some(i) => e[i].1
    case None => None
  }

  /** A key that appears once reads as the value beside it. */
  lemma GetAt(e: Entries, i: nat)
    requires UniqueKeys(e) && i < |e|
    ensures Get(e, e[i].0) == e[i].1
  {
    var k := KeyIndex(e, e[i].0);
  }

  /** `{ ...obj, [k]: v }`: an existing key keeps its place and takes the new
      value, a new key goes last. */
  function Put(e: Entries, k: string, v: Option<ExtraValue>): (r: Entries)
    ensures Get(r, k) == v
    ensures forall k' :: k' != k ==> Get(r, k') == Get(e, k')
    ensures UniqueKeys(e) ==> UniqueKeys(r)
    ensures |r| == |e| || r == e + [(k, v)]
    ensures forall i :: 0 <= i < |e| ==> r[i].0 == e[i].0
  {
    match KeyIndex(e, k)
    case Some(i) =>
      var r := e[i := (k, v)];
      assert KeyIndex(r, k) == Some(i) by {
        KeyIndexOfUpdate(e, i, k, v, k);
      }
      forall k' | k' != k
        ensures Get(r, k') == Get(e, k')
      {
        KeyIndexOfUpdate(e, i, k, v, k');
      }
      r
    case None =>
      var r := e + [(k, v)];
      assert KeyIndex(r, k) == Some(|e|) by {
        KeyIndexOfAppend(e, (k, v), k);
      }
      forall k' | k' != k
        ensures Get(r, k') == Get(e, k')
      {
        KeyIndexOfAppend(e, (k, v), k');
      }
      r
  }

  /** Overwriting the entry of one key leaves where every key is found unchanged. */
  lemma {:induction false} KeyIndexOfUpdate(e: Entries, i: nat, k: string, v: Option<ExtraValue>, q: string)
    requires i < |e| && e[i].0 == k
    ensures KeyIndex(e[i := (k, v)], q) == KeyIndex(e, q)
    decreases |e|
  {
    var r := e[i := (k, v)];
    if e[0].0 != q && i > 0 {
      assert r[1..] == e[1..][i - 1 := (k, v)];
      KeyIndexOfUpdate(e[1..], i - 1, k, v, q);
    }
  }

  /** Appending an entry does not move any key already present. */
  lemma {:induction false} KeyIndexOfAppend(e: Entries, p: (string, Option<ExtraValue>), q: string)
    ensures KeyIndex(e + [p], q) == (match KeyIndex(e, q) case Some(i) => Some(i) case None => if p.0 == q then Some(|e|) else None)
    decreases |e|
  {
    if |e| > 0 && e[0].0 != q {
      assert (e + [p])[1..] == e[1..] + [p];
      KeyIndexOfAppend(e[1..], p, q);
    } else if |e| == 0 {
      assert e + [p] == [p];
    }
  }

  // ---------------------------------------------------------------------------
  // Parsing

  /** The two validators the extras pass through: the first decides which keys are
      recognised extra types, the second whether the whole object is acceptable. */
  datatype Schemas = Schemas(allowed: set<string>, valid: Entries -> bool)

  /** `const [key, value] = e.split('=')`: the first two parts, the value `undefined`
      when there is no `=`. */
  function Component(e: string): (r: (string, Option<string>))
    ensures r.0 == Split(e, '=')[0]
    ensures r.1.Some? <==> |Split(e, '=')| >= 2
  {
    var parts := Split(e, '=');
    (parts[0], if |parts| >= 2 then Some(parts[1]) else None)
  }

  /** A recognised key keeps its text; any other key maps to `undefined`. */
  function Recognised(schemas: Schemas, c: (string, Option<string>)): (r: (string, Option<ExtraValue>))
    ensures r.0 == c.0
    ensures r.1.Some? <==> c.0 in schemas.allowed && c.1.Some?
    ensures r.1.Some? ==> r.1.value == Text(c.1.value)
  {
    if c.0 in schemas.allowed then
      (c.0, match c.1 case Some(t) => Some(Text(t)) case None => None)
    else (c.0, None)
  }

  function Recognise(schemas: Schemas, parts: seq<string>): (r: Entries)
    ensures |r| == |parts|
    ensures forall i :: 0 <= i < |parts| ==> r[i] == Recognised(schemas, Component(parts[i]))
  {
    if |parts| == 0 then []
    else Recognise(schemas, parts[..|parts| - 1]) + [Recognised(schemas, Component(parts[|parts| - 1]))]
  }

  /** `Object.fromEntries(pairs)`: a later pair with an existing key overwrites its
      value in place. */
  function FromEntries(pairs: Entries): (r: Entries)
    ensures UniqueKeys(r)
  {
    if |pairs| == 0 then []
    else
      var last := pairs[|pairs| - 1];
      Put(FromEntries(pairs[..|pairs| - 1]), last.0, last.1)
  }

  /** The object built from an extras text before the object schema sees it. */
  function RawObject(schemas: Schemas, text: string): Entries {
    FromEntries(Recognise(schemas, Split(text, '&')))
  }

  /** `parseExtras`: `{}` for an absent or empty text and for an object the schema
      rejects; otherwise the object built from the `&`-separated components. */
  function ParseExtras(schemas: Schemas, text: Option<string>): (r: Entries)
    ensures text.None? || text == Some("") ==> r == []
    ensures text.Some? && text.value != "" && !schemas.valid(RawObject(schemas, text.value)) ==> r == []
    ensures UniqueKeys(r)
  {
    if text.None? || text.value == "" then []
    else
      var o := RawObject(schemas, text.value);
      if schemas.valid(o) then o else []
  }

  /** A key that is not a recognised extra type never carries a value. */
  lemma UnrecognisedKeyIsUndefined(schemas: Schemas, text: Option<string>, k: string)
    requires k !in schemas.allowed
    ensures Get(ParseExtras(schemas, text), k) == None
  {
    if text.Some? && text.value != "" {
      var parts := Split(text.value, '&');
      FromEntriesUnrecognised(schemas, Recognise(schemas, parts), k);
    }
  }

  lemma {:induction false} FromEntriesUnrecognised(schemas: Schemas, pairs: Entries, k: string)
    requires k !in schemas.allowed
    requires forall i :: 0 <= i < |pairs| && pairs[i].0 == k ==> pairs[i].1.None?
    ensures Get(FromEntries(pairs), k) == None
    decreases |pairs|
  {
    if |pairs| > 0 {
      FromEntriesUnrecognised(schemas, pairs[..|pairs| - 1], k);
    }
  }

  /** Of a component with several `=`, the key is the text before the first one
      and the value the text up to the second: the rest is dropped. */
  lemma ComponentKeepsTwoParts(parts: seq<string>)
    requires |parts| >= 2
    requires forall i :: 0 <= i < |parts| ==> NoChar(parts[i], '=')
    ensures Component(Join(parts, "=")) == (parts[0], Some(parts[1]))
  {
    SplitJoin(parts, '=');
    ComponentOfParts(Join(parts, "="), parts);
  }

  lemma ComponentOfParts(e: string, parts: seq<string>)
    requires Split(e, '=') == parts && |parts| >= 2
    ensures Component(e) == (parts[0], Some(parts[1]))
  {
  }

  /** A later component with the same key decides its value. */
  lemma {:induction false} LastComponentWins(pairs: Entries, i: nat)
    requires i < |pairs|
    requires forall j :: i < j < |pairs| ==> pairs[j].0 != pairs[i].0
    ensures Get(FromEntries(pairs), pairs[i].0) == pairs[i].1
    decreases |pairs|
  {
    if i < |pairs| - 1 {
      LastComponentWins(pairs[..|pairs| - 1], i);
    }
  }

  // ---------------------------------------------------------------------------
  // Serialising

  /** The entries whose value is not `undefined`, in entry order. */
  function Defined(e: Entries): (r: Entries)
    ensures forall p :: p in r <==> p in e && p.1.Some?
    ensures |r| <= |e|
  {
    if |e| == 0 then []
    else
      var d := Defined(e[..|e| - 1]);
      assert e == e[..|e| - 1] + [e[|e| - 1]];
      if e[|e| - 1].1.Some? then d + [e[|e| - 1]] else d
  }

  /** `key=value` for every defined entry. */
  function Rendered(e: Entries): (r: seq<string>)
    ensures |r| == |Defined(e)|
    ensures forall i :: 0 <= i < |r| ==> r[i] == Defined(e)[i].0 + "=" + ValueText(Defined(e)[i].1.value)
  {
    var d := Defined(e);
    seq(|d|, i requires 0 <= i < |d| => d[i].0 + "=" + ValueText(d[i].1.value))
  }

  /** `toString`: the defined entries as `key=value`, joined with `&`. */
  function Serialise(e: Entries): string {
    Join(Rendered(e), "&")
  }

  /** The object without key `k`. */
  function Without(e: Entries, k: string): (r: Entries)
    ensures forall p :: p in r <==> p in e && p.0 != k
  {
    if |e| == 0 then []
    else
      var w := Without(e[..|e| - 1], k);
      assert e == e[..|e| - 1] + [e[|e| - 1]];
      if e[|e| - 1].0 == k then w else w + [e[|e| - 1]]
  }

  lemma DefinedSnoc(x: Entries, p: (string, Option<ExtraValue>))
    ensures Defined(x + [p]) == if p.1.Some? then Defined(x) + [p] else Defined(x)
  {
    assert (x + [p])[..|x|] == x;
  }

  lemma WithoutSnoc(x: Entries, p: (string, Option<ExtraValue>), k: string)
    ensures Without(x + [p], k) == if p.0 == k then Without(x, k) else Without(x, k) + [p]
  {
    assert (x + [p])[..|x|] == x;
  }

  /** Overwriting the one entry of `k` with `undefined` serialises like removing it. */
  lemma {:induction false} UpdateToUndefined(e: Entries, i: nat, k: string)
    requires UniqueKeys(e) && i < |e| && e[i].0 == k
    ensures Defined(e[i := (k, None)]) == Defined(Without(e, k))
    decreases |e|
  {
    if i == |e| - 1 {
      UpdateLastToUndefined(e, k);
    } else {
      var init := e[..|e| - 1];
      var last := e[|e| - 1];
      assert UniqueKeys(init);
      assert last.0 != k by {
        assert e[i].0 != e[|e| - 1].0;
      }
      UpdateToUndefined(init, i, k);
      UpdateBeforeLast(e, i, (k, None));
      DefinedSnoc(init[i := (k, None)], last);
      WithoutSnoc(init, last, k);
      DefinedSnoc(Without(init, k), last);
    }
  }

  lemma UpdateBeforeLast(e: Entries, i: nat, p: (string, Option<ExtraValue>))
    requires i < |e| - 1
    ensures e == e[..|e| - 1] + [e[|e| - 1]]
    ensures e[i := p] == e[..|e| - 1][i := p] + [e[|e| - 1]]
  {
  }

  lemma UpdateLastToUndefined(e: Entries, k: string)
    requires UniqueKeys(e) && |e| > 0 && e[|e| - 1].0 == k
    ensures Defined(e[|e| - 1 := (k, None)]) == Defined(Without(e, k))
  {
    var init := e[..|e| - 1];
    var last := e[|e| - 1];
    assert e == init + [last];
    assert e[|e| - 1 := (k, None)] == init + [(k, None)];
    DefinedSnoc(init, (k, None));
    WithoutSnoc(init, last, k);
    assert KeyIndex(init, k).None? by {
      forall j | 0 <= j < |init| ensures init[j].0 != k {
        assert e[j].0 != e[|e| - 1].0;
      }
    }
    WithoutAbsent(init, k);
  }

  /** Setting a key to `undefined` takes it out of the serialised text and keeps the
      other entries where they were: this is how the "None" genre is dropped. */
  lemma PutUndefinedDropsKey(e: Entries, k: string)
    requires UniqueKeys(e)
    ensures Defined(Put(e, k, None)) == Defined(Without(e, k))
  {
    match KeyIndex(e, k)
    case Some(i) =>
      UpdateToUndefined(e, i, k);
    case None =>
      DefinedSnoc(e, (k, None));
      WithoutAbsent(e, k);
  }

  lemma {:induction false} WithoutAbsent(e: Entries, k: string)
    requires KeyIndex(e, k).None?
    ensures Without(e, k) == e
    decreases |e|
  {
    if |e| > 0 {
      WithoutAbsent(e[..|e| - 1], k);
      assert e == e[..|e| - 1] + [e[|e| - 1]];
      assert e[|e| - 1].0 != k;
    }
  }

  /** An object of distinct keys is rebuilt unchanged from its own entries. */
  lemma {:induction false} FromEntriesOfUnique(e: Entries)
    requires UniqueKeys(e)
    ensures FromEntries(e) == e
    decreases |e|
  {
    if |e| > 0 {
      var init := e[..|e| - 1];
      assert UniqueKeys(init);
      FromEntriesOfUnique(init);
      assert KeyIndex(init, e[|e| - 1].0).None? by {
        forall i | 0 <= i < |init| ensures init[i].0 != e[|e| - 1].0 {
          assert e[i].0 != e[|e| - 1].0;
        }
      }
      assert init + [e[|e| - 1]] == e;
    }
  }

  /** What a writable extras object looks like: distinct recognised keys, texts, and
      no `&` or `=` inside a key or a value. */
  predicate Plain(schemas: Schemas, e: Entries) {
    UniqueKeys(e) &&
    forall i :: 0 <= i < |e| ==>
      e[i].0 in schemas.allowed && NoChar(e[i].0, '&') && NoChar(e[i].0, '=') &&
      (e[i].1.Some? ==> e[i].1.value.Text? && NoChar(e[i].1.value.s, '&') && NoChar(e[i].1.value.s, '='))
  }

  lemma {:induction false} DefinedPlain(schemas: Schemas, e: Entries)
    requires Plain(schemas, e)
    ensures Plain(schemas, Defined(e))
    ensures forall i :: 0 <= i < |Defined(e)| ==> Defined(e)[i].1.Some?
    decreases |e|
  {
    if |e| > 0 {
      var init := e[..|e| - 1];
      assert Plain(schemas, init);
      DefinedPlain(schemas, init);
      var d := Defined(init);
      if e[|e| - 1].1.Some? {
        var r := d + [e[|e| - 1]];
        forall i, j | 0 <= i < j < |r| ensures r[i].0 != r[j].0 {
          if j == |d| {
            assert d[i] in init;
            var m :| 0 <= m < |init| && init[m] == d[i];
            assert e[m].0 != e[|e| - 1].0;
          }
        }
        forall i | 0 <= i < |r| ensures r[i] in e {
          if i < |d| {
            assert d[i] in init;
          }
        }
      }
    }
  }

  /** One rendered entry splits back into its key and value. */
  lemma RenderedComponent(k: string, v: string)
    requires NoChar(k, '=') && NoChar(v, '=')
    ensures Component(k + "=" + v) == (k, Some(v))
  {
    var parts := [k, v];
    assert Join(parts, "=") == k + "=" + v;
    ComponentKeepsTwoParts(parts);
  }

  lemma PlainEntry(schemas: Schemas, e: Entries, p: (string, Option<ExtraValue>))
    requires Plain(schemas, e) && p in e
    ensures p.0 in schemas.allowed && NoChar(p.0, '&') && NoChar(p.0, '=')
    ensures p.1.Some? ==> p.1.value.Text? && NoChar(p.1.value.s, '&') && NoChar(p.1.value.s, '=')
  {
  }

  /** Each rendered `key=value` is free of `&` and splits back into its entry. */
  lemma RenderedPieces(schemas: Schemas, e: Entries)
    requires Plain(schemas, e)
    ensures forall i :: 0 <= i < |Defined(e)| ==> Defined(e)[i].1.Some? && Defined(e)[i].1.value.Text?
    ensures forall i :: 0 <= i < |Rendered(e)| ==>
      NoChar(Rendered(e)[i], '&') && Component(Rendered(e)[i]) == (Defined(e)[i].0, Some(Defined(e)[i].1.value.s))
  {
    var d := Defined(e);
    var rs := Rendered(e);
    DefinedPlain(schemas, e);
    forall i | 0 <= i < |d| ensures d[i].1.value.Text? {
      PlainEntry(schemas, d, d[i]);
    }
    forall i | 0 <= i < |rs| ensures NoChar(rs[i], '&') && Component(rs[i]) == (d[i].0, Some(d[i].1.value.s)) {
      PlainEntry(schemas, d, d[i]);
      RenderedComponent(d[i].0, d[i].1.value.s);
      NoCharConcat(d[i].0, "=", d[i].1.value.s, '&');
    }
  }

  /** Recognising the rendered pieces gives back the defined entries. */
  lemma RecogniseRendered(schemas: Schemas, e: Entries)
    requires Plain(schemas, e)
    ensures Recognise(schemas, Rendered(e)) == Defined(e)
  {
    var d := Defined(e);
    var rs := Rendered(e);
    var rec := Recognise(schemas, rs);
    RenderedPieces(schemas, e);
    DefinedPlain(schemas, e);
    assert |rec| == |d|;
    forall i | 0 <= i < |d| ensures rec[i] == d[i] {
      var s := d[i].1.value.s;
      PlainEntry(schemas, d, d[i]);
      assert Component(rs[i]) == (d[i].0, Some(s));
      assert rec[i] == Recognised(schemas, (d[i].0, Some(s)));
      assert d[i] == (d[i].0, Some(Text(s)));
    }
  }

  /** Parsing what `toString` writes gives back the defined entries, when the keys
      are recognised, the values are texts free of `&` and `=`, and the schema
      accepts the result. */
  lemma SerialiseRoundTrip(schemas: Schemas, e: Entries)
    requires Plain(schemas, e)
    requires schemas.valid(Defined(e))
    ensures ParseExtras(schemas, Some(Serialise(e))) == Defined(e)
  {
    var d := Defined(e);
    var rs := Rendered(e);
    var text := Serialise(e);
    DefinedPlain(schemas, e);
    if |d| > 0 {
      assert Split(text, '&') == rs by {
        RenderedPieces(schemas, e);
        SplitJoin(rs, '&');
      }
      assert text != "" by {
        assert rs[0] == d[0].0 + "=" + ValueText(d[0].1.value);
        JoinLength(rs, "&");
      }
      assert RawObject(schemas, text) == d by {
        RecogniseRendered(schemas, e);
        FromEntriesOfUnique(d);
      }
    } else {
      assert text == "";
    }
  }

  lemma NoCharConcat(a: string, b: string, c: string, x: char)
    requires NoChar(a, x) && NoChar(b, x) && NoChar(c, x)
    ensures NoChar(a + b + c, x)
  {
    var s := a + b + c;
    forall k | 0 <= k < |s| ensures s[k] != x {
      if k < |a| {
        assert s[k] == a[k];
      } else if k < |a| + |b| {
        assert s[k] == b[k - |a|];
      } else {
        assert s[k] == c[k - |a| - |b|];
      }
    }
  }

  // ---------------------------------------------------------------------------
  // The object

  /** `CatalogExtras`: the parsed extras of one request, changed through setters. */
  class CatalogExtras {
    var extras: Entries

    constructor(schemas: Schemas, text: Option<string>)
      ensures extras == ParseExtras(schemas, text)
    {
      extras := ParseExtras(schemas, text);
    }

    function Genre(): Option<ExtraValue>
      reads this
    {
      Get(extras, "genre")
    }

    function Search(): Option<ExtraValue>
      reads this
    {
      Get(extras, "search")
    }

    function Skip(): Option<ExtraValue>
      reads this
    {
      Get(extras, "skip")
    }

    /** `set genre(value)`: only the genre changes, and reads back as the new value. */
    method SetGenre(value: Option<string>)
      modifies this
      ensures extras == Put(old(extras), "genre", match value case Some(t) => Some(Text(t)) case None => None)
      ensures Genre() == (match value case Some(t) => Some(Text(t)) case None => None)
      ensures forall k :: k != "genre" ==> Get(extras, k) == Get(old(extras), k)
    {
      extras := Put(extras, "genre", match value case Some(t) => Some(Text(t)) case None => None);
    }

    /** `set search(value)`: only the search text changes. */
    method SetSearch(value: Option<string>)
      modifies this
      ensures extras == Put(old(extras), "search", match value case Some(t) => Some(Text(t)) case None => None)
      ensures Search() == (match value case Some(t) => Some(Text(t)) case None => None)
      ensures forall k :: k != "search" ==> Get(extras, k) == Get(old(extras), k)
    {
      extras := Put(extras, "search", match value case Some(t) => Some(Text(t)) case None => None);
    }

    /** `set skip(value)`: only the skip count changes. */
    method SetSkip(value: Option<int>)
      modifies this
      ensures extras == Put(old(extras), "skip", match value case Some(n) => Some(Count(n)) case None => None)
      ensures Skip() == (match value case Some(n) => Some(Count(n)) case None => None)
      ensures forall k :: k != "skip" ==> Get(extras, k) == Get(old(extras), k)
    {
      extras := Put(extras, "skip", match value case Some(n) => Some(Count(n)) case None => None);
    }

    function ToString(): string
      reads this
    {
      Serialise(extras)
    }
  }
}
