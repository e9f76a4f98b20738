/**
  Action proposals, their JSON payload and the canonical hash that binds an
  approval to one exact proposal. SHA-256 is an injective constructor here, and
  JSON text is the value it denotes with object keys in sorted order.
 */
module Proposals {
  import opened Prelude
  import opened OrderedDict

  /** A dictionary key: a string, or another object known by its `str`. */
  datatype Key = Text(text: string) | NonText(text: string)

  /** A set is also known by its `str`, which a dump with `default=str` writes instead of it. */
  datatype SeqKind = List | Tuple | Set(shown: string)

  type Entries = seq<Item<Key, Value>>

  datatype Value =
    | Null
    | Bool(b: bool)
    | Int(i: int)
    | Float(r: real)
    | Str(s: string)
    | Seq(kind: SeqKind, items: seq<Value>)
    | Dict(entries: seq<Item<Key, Value>>)
    | Enum(inner: Value, shown: string)
    | Other(shown: string)

  // ---- _json_safe ---------------------------------------------------------

  function JsonSafe(v: Value): Value
    decreases v, 0
  {
    match v
    case Dict(es) => Dict(SafeEntries(es))
    case Seq(_, items) => Seq(List, SafeItems(items))
    case Enum(inner, _) => JsonSafe(inner)
    case Other(shown) => Str(shown)
    case _ => v
  }

  /** `{str(key): _json_safe(item) ...}`: keys with the same text collapse onto the first place and the last value. */
  function SafeEntries(es: Entries): Entries
    decreases es, 1
  {
    if es == [] then []
    else
      assert (es decreases to es[|es| - 1]);
      Put(SafeEntries(es[..|es| - 1]), Text(es[|es| - 1].key.text), JsonSafe(es[|es| - 1].value))
  }

  function SafeItems(items: seq<Value>): seq<Value>
    decreases items, 1
  {
    if items == [] then [] else SafeItems(items[..|items| - 1]) + [JsonSafe(items[|items| - 1])]
  }

  /** The values that JSON text can carry without loss. */
  ghost predicate IsJson(v: Value)
    decreases v, 0
  {
    match v
    case Dict(es) => JsonEntries(es)
    case Seq(kind, items) => kind == List && forall x :: x in items ==> IsJson(x)
    case Enum(_, _) => false
    case Other(_) => false
    case _ => true
  }

  ghost predicate JsonEntries(es: Entries)
    decreases es, 1
  {
    Distinct(Keys(es)) && forall i :: 0 <= i < |es| ==>
      assert (es decreases to es[i]); es[i].key.Text? && IsJson(es[i].value)
  }

  lemma {:induction false} SafeIsJson(v: Value)
    ensures IsJson(JsonSafe(v))
    decreases v, 0
  {
    match v
    case Dict(es) => SafeEntriesAreJson(es);
    case Seq(_, items) => SafeItemsAreJson(items);
    case Enum(inner, _) => SafeIsJson(inner);
    case _ =>
  }

  lemma {:induction false} SafeEntriesAreJson(es: Entries)
    ensures JsonEntries(SafeEntries(es))
    decreases es, 1
  {
    if es != [] {
      var (front, last) := (es[..|es| - 1], es[|es| - 1]);
      SafeEntriesAreJson(front);
      assert (es decreases to last);
      SafeIsJson(last.value);
      PutJson(SafeEntries(front), last.key.text, JsonSafe(last.value));
    }
  }

  lemma {:induction false} SafeItemsAreJson(items: seq<Value>)
    ensures forall x :: x in SafeItems(items) ==> IsJson(x)
    decreases items, 1
  {
    if items != [] {
      SafeItemsAreJson(items[..|items| - 1]);
      SafeIsJson(items[|items| - 1]);
    }
  }

  lemma {:induction false} PutJson(es: Entries, text: string, v: Value)
    requires JsonEntries(es) && IsJson(v)
    ensures JsonEntries(Put(es, Text(text), v))
    decreases |es|
  {
    PutKeepsDistinct(es, Text(text), v);
    PutKeepsItems(es, text, v);
  }

  lemma {:induction false} PutKeepsItems(es: Entries, text: string, v: Value)
    requires IsJson(v)
    requires forall i :: 0 <= i < |es| ==> es[i].key.Text? && IsJson(es[i].value)
    ensures forall e :: e in Put(es, Text(text), v) ==> e.key.Text? && IsJson(e.value)
    decreases |es|
  {
    if es != [] {
      PutKeepsItems(es[1..], text, v);
    }
  }

  lemma {:induction false} JsonIsFixed(v: Value)
    requires IsJson(v)
    ensures JsonSafe(v) == v
    decreases v, 0
  {
    match v
    case Dict(es) => JsonEntriesAreFixed(es);
    case Seq(_, items) => JsonItemsAreFixed(items);
    case _ =>
  }

  lemma {:induction false} JsonEntriesAreFixed(es: Entries)
    requires JsonEntries(es)
    ensures SafeEntries(es) == es
    decreases es, 1
  {
    if es != [] {
      var (front, last) := (es[..|es| - 1], es[|es| - 1]);
      assert Keys(front) == Keys(es)[..|es| - 1];
      JsonEntriesAreFixed(front);
      assert (es decreases to last);
      JsonIsFixed(last.value);
      assert last.key !in Keys(front) by {
        assert Keys(es)[|es| - 1] == last.key;
      }
      PutNew(front, last.key, last.value);
      assert es == front + [last];
    }
  }

  lemma {:induction false} JsonItemsAreFixed(items: seq<Value>)
    requires forall x :: x in items ==> IsJson(x)
    ensures SafeItems(items) == items
    decreases items, 1
  {
    if items != [] {
      var (front, last) := (items[..|items| - 1], items[|items| - 1]);
      JsonItemsAreFixed(front);
      JsonIsFixed(last);
      assert items == front + [last];
    }
  }

  lemma {:induction false} PutNew(es: Entries, k: Key, v: Value)
    requires k !in Keys(es)
    ensures Put(es, k, v) == es + [Item(k, v)]
    decreases |es|
  {
    if es != [] {
      assert Keys(es) == [es[0].key] + Keys(es[1..]);
      PutNew(es[1..], k, v);
    }
  }

  /** `_json_safe` changes nothing the second time. */
  lemma JsonSafeIdempotent(v: Value)
    ensures JsonSafe(JsonSafe(v)) == JsonSafe(v)
  {
    SafeIsJson(v);
    JsonIsFixed(JsonSafe(v));
  }

  // ---- json.dumps(..., sort_keys=True) and back ---------------------------

  /** The value read back from the text: every object's keys in order. */
  function Canonical(v: Value): Value
    decreases v, 0
  {
    match v
    case Dict(es) => Dict(Sorted(CanonicalEntries(es)))
    case Seq(kind, items) => Seq(kind, CanonicalItems(items))
    case _ => v
  }

  function CanonicalEntries(es: Entries): (r: Entries)
    ensures |r| == |es|
    ensures forall i :: 0 <= i < |es| ==> r[i].key == es[i].key
    decreases es, 1
  {
    if es == [] then []
    else
      assert (es decreases to es[0]);
      [Item(es[0].key, Canonical(es[0].value))] + CanonicalEntries(es[1..])
  }

  function CanonicalItems(items: seq<Value>): seq<Value>
    decreases items, 1
  {
    if items == [] then [] else [Canonical(items[0])] + CanonicalItems(items[1..])
  }

  function Insert(e: Item<Key, Value>, es: Entries): Entries {
    if es == [] || TextLe(e.key.text, es[0].key.text) then [e] + es else [es[0]] + Insert(e, es[1..])
  }

  function Sorted(es: Entries): Entries {
    if es == [] then [] else Insert(es[0], Sorted(es[1..]))
  }

  ghost predicate InOrder(es: Entries) {
    forall i :: 0 < i < |es| ==> TextLe(es[i - 1].key.text, es[i].key.text)
  }

  lemma {:induction false} InsertInOrder(e: Item<Key, Value>, es: Entries)
    requires InOrder(es)
    ensures InOrder(Insert(e, es))
    ensures Insert(e, es)[0] == e || (es != [] && Insert(e, es)[0] == es[0])
    decreases |es|
  {
    if es != [] && !TextLe(e.key.text, es[0].key.text) {
      TextLeTotal(e.key.text, es[0].key.text);
      InsertInOrder(e, es[1..]);
    }
  }

  lemma {:induction false} InsertKeeps(e: Item<Key, Value>, es: Entries)
    ensures multiset(Insert(e, es)) == multiset(es) + multiset{e}
    decreases |es|
  {
    if es != [] && !TextLe(e.key.text, es[0].key.text) {
      InsertKeeps(e, es[1..]);
      assert es == [es[0]] + es[1..];
    } else {
      assert multiset([e] + es) == multiset{e} + multiset(es);
    }
  }

  lemma {:induction false} SortedInOrder(es: Entries)
    ensures InOrder(Sorted(es)) && multiset(Sorted(es)) == multiset(es)
    decreases |es|
  {
    if es != [] {
      SortedInOrder(es[1..]);
      InsertInOrder(es[0], Sorted(es[1..]));
      InsertKeeps(es[0], Sorted(es[1..]));
      assert es == [es[0]] + es[1..];
    }
  }

  lemma {:induction false} SortedIsFixed(es: Entries)
    requires InOrder(es)
    ensures Sorted(es) == es
    decreases |es|
  {
    if es != [] {
      assert forall i :: 0 < i < |es[1..]| ==> es[1..][i - 1] == es[i] && es[1..][i] == es[i + 1];
      SortedIsFixed(es[1..]);
      assert |es| > 1 ==> TextLe(es[0].key.text, es[1].key.text);
      assert es == [es[0]] + es[1..];
    }
  }

  /** Rearranging distinct JSON entries leaves distinct JSON entries. */
  lemma RearrangedEntries(es: Entries, es': Entries)
    requires JsonEntries(es) && multiset(es') == multiset(es)
    ensures JsonEntries(es')
  {
    forall i | 0 <= i < |es'|
      ensures es'[i].key.Text? && IsJson(es'[i].value)
    {
      assert es'[i] in multiset(es');
    }
    forall i, j | 0 <= i < j < |es'|
      ensures Keys(es')[i] != Keys(es')[j]
    {
      if es'[i].key == es'[j].key {
        assert es'[i] in multiset(es') && es'[j] in multiset(es');
        OneItemPerKey(es, es'[i], es'[j]);
        TwiceInMultiset(es', i, j);
        OnceInMultiset(es, es'[i]);
      }
    }
  }

  lemma OneItemPerKey(es: Entries, a: Item<Key, Value>, b: Item<Key, Value>)
    requires Distinct(Keys(es)) && a in es && b in es && a.key == b.key
    ensures a == b
  {
    var i :| 0 <= i < |es| && es[i] == a;
    var j :| 0 <= j < |es| && es[j] == b;
    assert Keys(es)[i] == Keys(es)[j];
  }

  lemma TwiceInMultiset(es: Entries, i: nat, j: nat)
    requires i < j < |es| && es[i] == es[j]
    ensures multiset(es)[es[i]] >= 2
  {
    assert es == es[..j] + [es[j]] + es[j + 1..];
    assert es[i] in es[..j];
  }

  lemma OnceInMultiset(es: Entries, e: Item<Key, Value>)
    requires Distinct(Keys(es)) && e in es
    ensures multiset(es)[e] == 1
  {
    var i :| 0 <= i < |es| && es[i] == e;
    assert es == es[..i] + [e] + es[i + 1..];
    forall j | 0 <= j < |es| && j != i
      ensures es[j] != e
    {
      assert Keys(es)[j] != Keys(es)[i];
    }
    assert e !in es[..i] && e !in es[i + 1..];
  }

  lemma {:induction false} CanonicalIsJson(v: Value)
    requires IsJson(v)
    ensures IsJson(Canonical(v)) && Canonical(Canonical(v)) == Canonical(v)
    decreases v, 0
  {
    match v
    case Dict(es) =>
      CanonicalEntriesAreJson(es);
      SortedEntriesAreCanonical(es);
    case Seq(_, items) =>
      CanonicalItemsAreJson(items);
    case _ =>
  }

  lemma SameMembers(a: Entries, b: Entries)
    requires multiset(a) == multiset(b)
    ensures forall x :: x in a ==> x in b
  {
    forall x | x in a
      ensures x in b
    {
      assert x in multiset(a);
    }
  }

  lemma SortedEntriesAreCanonical(es: Entries)
    requires Distinct(Keys(es))
    requires forall x :: x in CanonicalEntries(es) ==> x.key.Text? && IsJson(x.value) && Canonical(x.value) == x.value
    ensures JsonEntries(Sorted(CanonicalEntries(es)))
    ensures Canonical(Dict(Sorted(CanonicalEntries(es)))) == Dict(Sorted(CanonicalEntries(es)))
  {
    var cs := CanonicalEntries(es);
    assert Keys(cs) == Keys(es);
    SortedInOrder(cs);
    RearrangedEntries(cs, Sorted(cs));
    SameMembers(Sorted(cs), cs);
    CanonicalEntriesFixed(Sorted(cs));
    SortedIsFixed(Sorted(cs));
  }

  lemma {:induction false} CanonicalEntriesAreJson(es: Entries)
    requires forall i :: 0 <= i < |es| ==> es[i].key.Text? && IsJson(es[i].value)
    ensures forall x :: x in CanonicalEntries(es) ==> x.key.Text? && IsJson(x.value) && Canonical(x.value) == x.value
    decreases es, 1
  {
    if es != [] {
      assert (es decreases to es[0]);
      CanonicalIsJson(es[0].value);
      CanonicalEntriesAreJson(es[1..]);
    }
  }

  lemma {:induction false} CanonicalEntriesFixed(es: Entries)
    requires forall x :: x in es ==> Canonical(x.value) == x.value
    ensures CanonicalEntries(es) == es
    decreases |es|
  {
    if es != [] {
      assert es[0] in es;
      CanonicalEntriesFixed(es[1..]);
      assert es == [es[0]] + es[1..];
    }
  }

  lemma {:induction false} CanonicalItemsAreJson(items: seq<Value>)
    requires forall x :: x in items ==> IsJson(x)
    ensures forall x :: x in CanonicalItems(items) ==> IsJson(x)
    ensures CanonicalItems(CanonicalItems(items)) == CanonicalItems(items)
    decreases items, 1
  {
    if items != [] {
      CanonicalIsJson(items[0]);
      CanonicalItemsAreJson(items[1..]);
      assert CanonicalItems(items)[1..] == CanonicalItems(items[1..]);
    }
  }

  // ---- the JSON value that a value denotes -----------------------------------

  /** Enums denote what they hold. */
  function Core(v: Value): (core: Value)
    ensures !core.Enum?
  {
    if v.Enum? then Core(v.inner) else v
  }

  /** The value under a key's text, the last one counting. */
  function Lookup(es: Entries, text: string): (found: Option<Value>)
    ensures found.Some? ==> (es decreases to found.value)
    decreases |es|
  {
    if es == [] then None
    else
      assert (es decreases to es[|es| - 1]) && (es decreases to es[..|es| - 1]);
      if es[|es| - 1].key.text == text then Some(es[|es| - 1].value) else Lookup(es[..|es| - 1], text)
  }

  /** Both values denote the same JSON value: the same leaf, lists alike item by item, or objects alike key by key. */
  ghost predicate Same(a: Value, b: Value)
    decreases a
  {
    match a
    case Enum(inner, _) => Same(inner, b)
    case Dict(es) =>
      Core(b).Dict? && forall text: string :: SameUnder(es, Core(b).entries, text)
    case Seq(_, items) =>
      Core(b).Seq? && |Core(b).items| == |items| && forall i :: 0 <= i < |items| ==> Same(items[i], Core(b).items[i])
    case Other(shown) => Core(b) in {Str(shown), Other(shown)}
    case Str(text) => Core(b) in {Str(text), Other(text)}
    case _ => Core(b) == a
  }

  ghost predicate SameUnder(es: Entries, fs: Entries, text: string)
    decreases es
  {
    && (Lookup(es, text).Some? <==> Lookup(fs, text).Some?)
    && (Lookup(es, text).Some? ==> Same(Lookup(es, text).value, Lookup(fs, text).value))
  }

  /** What a value has become after `_json_safe`, a dump with sorted keys and a reload. */
  function Denoted(v: Value): Value {
    Canonical(JsonSafe(v))
  }

  function DenotedEntries(es: Entries): Entries {
    Sorted(CanonicalEntries(SafeEntries(es)))
  }

  lemma {:induction false} DenotedCore(v: Value)
    ensures Denoted(v) == Denoted(Core(v))
    decreases v
  {
    if v.Enum? { DenotedCore(v.inner); }
  }

  lemma {:induction false} SafeGet(es: Entries, text: string)
    ensures Get(SafeEntries(es), Text(text)) ==
            match Lookup(es, text) case None => None case Some(v) => Some(JsonSafe(v))
    decreases |es|
  {
    if es != [] {
      var (front, last) := (es[..|es| - 1], es[|es| - 1]);
      SafeGet(front, text);
      assert (es decreases to last);
      GetPut(SafeEntries(front), Text(last.key.text), JsonSafe(last.value), Text(text));
    }
  }

  lemma {:induction false} CanonicalGet(es: Entries, k: Key)
    ensures Get(CanonicalEntries(es), k) == match Get(es, k) case None => None case Some(v) => Some(Canonical(v))
    decreases |es|
  {
    if es != [] {
      CanonicalGet(es[1..], k);
      assert CanonicalEntries(es)[1..] == CanonicalEntries(es[1..]);
    }
  }

  lemma {:induction false} InsertGet(e: Item<Key, Value>, es: Entries, k: Key)
    requires Get(es, e.key) == None
    ensures Get(Insert(e, es), k) == if k == e.key then Some(e.value) else Get(es, k)
    decreases |es|
  {
    if es != [] && !TextLe(e.key.text, es[0].key.text) {
      InsertGet(e, es[1..], k);
      assert Insert(e, es)[1..] == Insert(e, es[1..]);
    } else {
      assert Insert(e, es)[1..] == es;
    }
  }

  lemma HeadIsApart(es: Entries)
    requires es != [] && Distinct(Keys(es))
    ensures Distinct(Keys(es[1..])) && Get(es[1..], es[0].key) == None
  {
    assert Keys(es[1..]) == Keys(es)[1..];
    GetIffKey(es[1..], es[0].key);
    forall i | 0 <= i < |es[1..]|
      ensures Keys(es[1..])[i] != es[0].key
    {
      assert Keys(es)[0] != Keys(es)[i + 1];
    }
  }

  lemma {:induction false} SortedGet(es: Entries, k: Key)
    requires Distinct(Keys(es))
    ensures Get(Sorted(es), k) == Get(es, k)
    decreases |es|
  {
    if es != [] {
      HeadIsApart(es);
      SortedGet(es[1..], k);
      SortedGet(es[1..], es[0].key);
      InsertGet(es[0], Sorted(es[1..]), k);
    }
  }

  /** An object's denotation, key by key. */
  lemma DenotedGet(es: Entries, text: string)
    ensures Get(DenotedEntries(es), Text(text)) ==
            match Lookup(es, text) case None => None case Some(v) => Some(Denoted(v))
  {
    SafeEntriesAreJson(es);
    assert Keys(CanonicalEntries(SafeEntries(es))) == Keys(SafeEntries(es));
    SortedGet(CanonicalEntries(SafeEntries(es)), Text(text));
    CanonicalGet(SafeEntries(es), Text(text));
    SafeGet(es, text);
  }

  lemma {:induction false} HeadIsLeast(es: Entries, i: nat)
    requires InOrder(es) && i < |es|
    ensures TextLe(es[0].key.text, es[i].key.text)
  {
    if i == 0 {
      TextLeReflexive(es[0].key.text);
    } else {
      HeadIsLeast(es, i - 1);
      TextLeTransitive(es[0].key.text, es[i - 1].key.text, es[i].key.text);
    }
  }

  ghost predicate Tidy(es: Entries) {
    InOrder(es) && Distinct(Keys(es)) && forall i :: 0 <= i < |es| ==> es[i].key.Text?
  }

  lemma TailIsTidy(es: Entries)
    requires Tidy(es) && es != []
    ensures Tidy(es[1..]) && Get(es[1..], es[0].key) == None
  {
    HeadIsApart(es);
    forall i | 0 < i < |es[1..]|
      ensures TextLe(es[1..][i - 1].key.text, es[1..][i].key.text)
    {
      assert es[1..][i - 1] == es[i] && es[1..][i] == es[i + 1];
    }
  }

  lemma FirstIsFound(a: Entries, b: Entries)
    requires Tidy(a) && Tidy(b) && a != [] && Get(b, a[0].key) == Some(a[0].value)
    ensures b != [] && TextLe(b[0].key.text, a[0].key.text)
  {
    GetIffKey(b, a[0].key);
    var i :| 0 <= i < |b| && b[i] == Item(a[0].key, a[0].value);
    HeadIsLeast(b, i);
  }

  /** Tidy objects with the same entries are the same. */
  lemma {:induction false} TidyExtensional(a: Entries, b: Entries)
    requires Tidy(a) && Tidy(b) && forall text: string :: Get(a, Text(text)) == Get(b, Text(text))
    ensures a == b
    decreases |a|
  {
    if a != [] {
      assert a[0].key == Text(a[0].key.text) && Get(a, a[0].key) == Some(a[0].value);
      FirstIsFound(a, b);
    }
    if b != [] {
      assert b[0].key == Text(b[0].key.text) && Get(b, b[0].key) == Some(b[0].value);
      FirstIsFound(b, a);
    }
    if a != [] {
      TextLeTotal(a[0].key.text, b[0].key.text);
      assert a[0] == b[0];
      TailIsTidy(a); TailIsTidy(b);
      forall text: string
        ensures Get(a[1..], Text(text)) == Get(b[1..], Text(text))
      {
        assert Get(a, Text(text)) == Get(b, Text(text));
      }
      TidyExtensional(a[1..], b[1..]);
      assert a == [a[0]] + a[1..] && b == [b[0]] + b[1..];
    }
  }

  lemma DenotedIsTidy(es: Entries)
    ensures Tidy(DenotedEntries(es))
  {
    SafeEntriesAreJson(es);
    CanonicalIsJson(Dict(SafeEntries(es)));
    SortedInOrder(CanonicalEntries(SafeEntries(es)));
  }

  lemma {:induction false} DenotedItem(items: seq<Value>, i: nat)
    requires i < |items|
    ensures |CanonicalItems(SafeItems(items))| == |items|
    ensures CanonicalItems(SafeItems(items))[i] == Denoted(items[i])
  {
    SafeItemAt(items, i);
    CanonicalItemAt(SafeItems(items), i);
  }

  lemma {:induction false} SafeItemAt(items: seq<Value>, i: nat)
    requires i < |items|
    ensures |SafeItems(items)| == |items| && SafeItems(items)[i] == JsonSafe(items[i])
    decreases |items|
  {
    var front := items[..|items| - 1];
    if front != [] { SafeItemAt(front, if i < |front| then i else 0); }
  }

  lemma {:induction false} CanonicalItemAt(items: seq<Value>, i: nat)
    requires i < |items|
    ensures |CanonicalItems(items)| == |items| && CanonicalItems(items)[i] == Canonical(items[i])
    decreases |items|
  {
    if |items| > 1 { CanonicalItemAt(items[1..], if i > 0 then i - 1 else 0); }
  }

  /** Two values are stored and hashed alike exactly when they denote the same JSON value. */
  lemma {:induction false} SameIff(a: Value, b: Value)
    ensures Same(a, b) <==> Denoted(a) == Denoted(b)
    decreases a
  {
    DenotedCore(b);
    match a
    case Enum(inner, _) => SameIff(inner, b);
    case Dict(es) => if Core(b).Dict? { SameObjectIff(a, es, Core(b).entries, b); }
    case Seq(_, items) => if Core(b).Seq? { SameListIff(a, items, Core(b).items, b); }
    case _ =>
  }

  lemma {:induction false} SameObjectIff(a: Value, es: Entries, fs: Entries, b: Value)
    requires a == Dict(es) && Core(b) == Dict(fs)
    ensures Same(a, b) <==> DenotedEntries(es) == DenotedEntries(fs)
    decreases a, 0
  {
    forall text: string
      ensures Get(DenotedEntries(es), Text(text)) == Get(DenotedEntries(fs), Text(text)) <==> SameUnder(es, fs, text)
    {
      DenotedGet(es, text);
      DenotedGet(fs, text);
      if Lookup(es, text).Some? && Lookup(fs, text).Some? {
        assert (a decreases to es) && (es decreases to Lookup(es, text).value);
        SameIff(Lookup(es, text).value, Lookup(fs, text).value);
      }
    }
    assert Same(a, b) ==> forall text: string :: SameUnder(a.entries, Core(b).entries, text);
    assert (forall text: string :: SameUnder(a.entries, Core(b).entries, text)) ==> Same(a, b);
    DenotedIsTidy(es); DenotedIsTidy(fs);
    if Same(a, b) { TidyExtensional(DenotedEntries(es), DenotedEntries(fs)); }
  }

  lemma {:induction false} SameListIff(a: Value, items: seq<Value>, others: seq<Value>, b: Value)
    requires a.Seq? && a.items == items && Core(b).Seq? && Core(b).items == others
    ensures Same(a, b) <==> CanonicalItems(SafeItems(items)) == CanonicalItems(SafeItems(others))
    decreases a, 0
  {
    if items != [] { DenotedItem(items, 0); }
    if others != [] { DenotedItem(others, 0); }
    if |items| == |others| {
      forall i | 0 <= i < |items|
        ensures CanonicalItems(SafeItems(items))[i] == CanonicalItems(SafeItems(others))[i] <==>
                Same(items[i], others[i])
      {
        DenotedItem(items, i); DenotedItem(others, i);
        SameIff(items[i], others[i]);
      }
    }
  }

  // ---- proposals ----------------------------------------------------------

  datatype Target = ToolTarget | RuntimeTarget
  datatype Scope = Read | Write | Execute | Network | Memory
  datatype Risk = Low | Medium | High | Critical

  /** `A` is what arguments and metadata are: Python entries in a proposal, a JSON value in its payload. */
  datatype Action<A> = Action(
    actionId: string, target: Target, operation: string, arguments: A, scopes: seq<Scope>, reason: string,
    risk: Risk, reversible: bool, correlationId: Option<string>, retryReason: Option<string>, metadata: A)

  type Proposal = Action<Entries>
  type Payload = Action<Value>

  function ToPayload(p: Proposal): Payload {
    Action(p.actionId, p.target, p.operation, JsonSafe(Dict(p.arguments)), p.scopes, p.reason,
           p.risk, p.reversible, p.correlationId, p.retryReason, JsonSafe(Dict(p.metadata)))
  }

  /** What the `proposal_json` column holds. */
  function Stored(p: Payload): Payload {
    p.(arguments := Canonical(p.arguments), metadata := Canonical(p.metadata))
  }

  /** `dict(payload.get(name) or {})` */
  function DictOr(v: Value): Entries {
    if v.Dict? then v.entries else []
  }

  function FromPayload(p: Payload): Proposal {
    Action(p.actionId, p.target, p.operation, DictOr(p.arguments), p.scopes, p.reason,
           p.risk, p.reversible, p.correlationId, p.retryReason, DictOr(p.metadata))
  }

  datatype Digest = Sha256(preimage: Payload)

  function Hash(p: Proposal): Digest {
    Sha256(Stored(ToPayload(p)).(correlationId := None))
  }

  /** The proposals agree field by field, arguments and metadata as JSON; the correlation id is trace only. */
  ghost predicate Alike(p: Proposal, q: Proposal) {
    && p.actionId == q.actionId && p.target == q.target && p.operation == q.operation
    && p.scopes == q.scopes && p.reason == q.reason && p.risk == q.risk
    && p.reversible == q.reversible && p.retryReason == q.retryReason
    && Same(Dict(p.arguments), Dict(q.arguments)) && Same(Dict(p.metadata), Dict(q.metadata))
  }

  lemma {:induction false} DenotedTwice(v: Value)
    ensures JsonSafe(Denoted(v)) == Denoted(v) && Denoted(Denoted(v)) == Denoted(v) && Same(Denoted(v), v)
  {
    SafeIsJson(v);
    CanonicalIsJson(JsonSafe(v));
    JsonIsFixed(Denoted(v));
    SameIff(Denoted(v), v);
  }

  /**
    Rebuilding a proposal from its stored payload gives back the payload and the
    hash, and a proposal that agrees with the first in every field.
   */
  lemma RoundTrip(p: Proposal)
    ensures var q := FromPayload(Stored(ToPayload(p)));
            && ToPayload(q) == Stored(ToPayload(p)) && Stored(ToPayload(q)) == Stored(ToPayload(p))
            && Hash(q) == Hash(p) && Alike(q, p) && q.correlationId == p.correlationId
  {
    DenotedTwice(Dict(p.arguments));
    DenotedTwice(Dict(p.metadata));
  }

  /** Two hashes are equal exactly when the proposals agree in every field but the correlation id. */
  lemma HashBinds(p: Proposal, q: Proposal)
    ensures Hash(p) == Hash(q) <==> Alike(p, q)
  {
    SameIff(Dict(p.arguments), Dict(q.arguments));
    SameIff(Dict(p.metadata), Dict(q.metadata));
  }
}
