/**
 * The option-schema generator of the 1.15.2 extension: `$ref` resolution,
 * field appending and default merging over parsed JSON schema objects.
 *
 * An object is a value whose keys keep their insertion order, the order
 * `for..in` visits them; assigning to an existing key keeps its place and a
 * new key goes last. The source changes objects in place and returns them;
 * here each method returns the object it changed.
 */
module OptionsSchema {
  import opened Wrappers
  import opened JsString
  import opened JsValue

  type Fields = seq<(String, Value)>

  /** What the generator throws, and the inputs this model does not cover. */
  datatype SchemaError =
    | TypeError        // a property read or write on `null`/`undefined` or a primitive, `split` of a non-string, `in` on a primitive
    | SyntaxError      // `JSON.parse(JSON.stringify(undefined))`
    | Thrown(message: String)
    | OutOfFuel        // the reference nesting went deeper than the fuel allows
    | Unmodelled       // `for..in` over the indices of an array or string into an object, or an inherited property

  // ---------------------------------------------------------------------------
  // Object fields.

  function Keys(fs: Fields): (ks: seq<String>)
    ensures |ks| == |fs|
  {
    if fs == [] then [] else [fs[0].0] + Keys(fs[1..])
  }

  /** JavaScript objects never repeat a key. */
  predicate DistinctKeys(fs: Fields) {
    forall i, j :: 0 <= i < j < |fs| ==> fs[i].0 != fs[j].0
  }

  /** `obj[key]` for an own property; `undefined` when it is missing. */
  function Lookup(fs: Fields, key: String): Value {
    if fs == [] then Undefined
    else if fs[0].0 == key then fs[0].1
    else Lookup(fs[1..], key)
  }

  /** The position of `key`, if the object has it as an own property. */
  function Find(fs: Fields, key: String): (r: Option<nat>)
    ensures r.Some? ==> r.value < |fs|
  {
    if fs == [] then None
    else if fs[0].0 == key then Some(0)
    else
      var r := Find(fs[1..], key);
      if r.None? then None else Some(r.value + 1)
  }

  /** A lookup reads the value at the position `Find` gives, and `undefined` when there is none. */
  lemma {:induction false} LookupFind(fs: Fields, key: String)
    ensures Find(fs, key).None? ==> Lookup(fs, key) == Undefined
    ensures Find(fs, key).Some? ==> Lookup(fs, key) == fs[Find(fs, key).value].1
  {
    if fs != [] && fs[0].0 != key {
      LookupFind(fs[1..], key);
    }
  }

  /** Assigning a key keeps the length when the key is present and adds one otherwise. */
  lemma {:induction false} PutLength(fs: Fields, key: String, v: Value)
    ensures |Put(fs, key, v)| == if Find(fs, key).Some? then |fs| else |fs| + 1
  {
    if fs != [] && fs[0].0 != key {
      PutLength(fs[1..], key, v);
    }
  }

  /** `obj[key] = v`: an existing key keeps its place, a new one goes last. */
  function Put(fs: Fields, key: String, v: Value): (r: Fields)
  {
    if fs == [] then [(key, v)]
    else if fs[0].0 == key then [(key, v)] + fs[1..]
    else [fs[0]] + Put(fs[1..], key, v)
  }

  /** `delete obj[key]`. */
  function Remove(fs: Fields, key: String): Fields {
    if fs == [] then []
    else if fs[0].0 == key then Remove(fs[1..], key)
    else [fs[0]] + Remove(fs[1..], key)
  }

  lemma {:induction false} KeysAt(fs: Fields, i: nat)
    requires i < |fs|
    ensures Keys(fs)[i] == fs[i].0
  {
    if i > 0 {
      KeysAt(fs[1..], i - 1);
    }
  }

  lemma KeysCons(x: (String, Value), fs: Fields)
    ensures Keys([x] + fs) == [x.0] + Keys(fs)
  {
    assert ([x] + fs)[1..] == fs;
  }

  lemma LookupCons(x: (String, Value), fs: Fields, k: String)
    ensures Lookup([x] + fs, k) == if x.0 == k then x.1 else Lookup(fs, k)
  {
    assert ([x] + fs)[1..] == fs;
  }

  /** A missing key reads as `undefined`. */
  lemma {:induction false} LookupMissing(fs: Fields, k: String)
    requires k !in Keys(fs)
    ensures Lookup(fs, k) == Undefined
  {
    if fs != [] {
      assert Keys(fs)[0] == fs[0].0;
      assert Keys(fs)[1..] == Keys(fs[1..]);
      LookupMissing(fs[1..], k);
    }
  }

  /** `Find` locates an own key exactly when it is present, where `Lookup` reads it. */
  lemma {:induction false} FindSpec(fs: Fields, k: String)
    ensures Find(fs, k).None? <==> k !in Keys(fs)
    ensures Find(fs, k).Some? ==> fs[Find(fs, k).value].0 == k && fs[Find(fs, k).value].1 == Lookup(fs, k)
  {
    if fs != [] {
      FindSpec(fs[1..], k);
      assert Keys(fs) == [fs[0].0] + Keys(fs[1..]);
    }
  }

  /** Assigning a key adds it when missing and otherwise keeps the keys and their order. */
  lemma {:induction false} PutKeys(fs: Fields, key: String, v: Value)
    ensures Keys(Put(fs, key, v)) == if key in Keys(fs) then Keys(fs) else Keys(fs) + [key]
  {
    if fs != [] {
      assert Keys(fs) == [fs[0].0] + Keys(fs[1..]);
      if fs[0].0 == key {
        KeysCons((key, v), fs[1..]);
      } else {
        PutKeys(fs[1..], key, v);
        KeysCons(fs[0], Put(fs[1..], key, v));
      }
    }
  }

  /** After `obj[key] = v`, reading `key` gives `v` and every other key is as before. */
  lemma {:induction false} PutLookup(fs: Fields, key: String, v: Value, k: String)
    ensures Lookup(Put(fs, key, v), k) == if k == key then v else Lookup(fs, k)
  {
    if fs != [] {
      if fs[0].0 == key {
        LookupCons((key, v), fs[1..], k);
      } else {
        PutLookup(fs[1..], key, v, k);
        LookupCons(fs[0], Put(fs[1..], key, v), k);
      }
    }
  }

  /** After `delete obj[key]` the key is gone and every other key is kept. */
  lemma {:induction false} RemoveKeys(fs: Fields, key: String, k: String)
    ensures k in Keys(Remove(fs, key)) <==> k in Keys(fs) && k != key
  {
    if fs != [] {
      RemoveKeys(fs[1..], key, k);
      assert Keys(fs) == [fs[0].0] + Keys(fs[1..]);
      if fs[0].0 != key {
        KeysCons(fs[0], Remove(fs[1..], key));
      }
    }
  }

  /** After `delete obj[key]`, every other key reads as before. */
  lemma {:induction false} RemoveLookup(fs: Fields, key: String, k: String)
    requires k != key
    ensures Lookup(Remove(fs, key), k) == Lookup(fs, k)
  {
    if fs != [] {
      RemoveLookup(fs[1..], key, k);
      if fs[0].0 != key {
        LookupCons(fs[0], Remove(fs[1..], key), k);
      }
    }
  }

  /** `for..in` over the value visits at least one key. */
  predicate HasEntries(v: Value) {
    (v.Obj? && v.fields != []) || (v.Arr? && v.items != []) || (v.Str? && v.s != [])
  }

  // ---------------------------------------------------------------------------
  // `AppendFieldsToObject`.

  /**
   * `AppendFieldsToObject(reference, obj)`: for every key of the reference, a
   * key the object has is appended to recursively and a missing one is copied.
   * A value whose `typeof` is not "object" is returned as it is; `null` throws
   * as soon as the reference has a key. Arrays are appended to index by index.
   * A key is read from the object as it was on entry: the keys `for..in`
   * visits are distinct, so that is the value the source reads.
   */
  function Appended(reference: Value, obj: Value): (r: Result<Value, SchemaError>)
    ensures !obj.Obj? && !obj.Arr? && !obj.Null? ==> r == Ok(obj)
    ensures obj.Null? ==> r == if HasEntries(reference) then Err(TypeError) else Ok(Null)
    ensures r.Ok? && obj.Obj? ==> r.value.Obj?
    ensures r.Ok? && obj.Arr? ==> r.value.Arr?
    decreases obj, 1, 0
  {
    match obj
    case Obj(fs) =>
      if reference.Obj? then
        var r := AfterEntries(reference.fields, fs, |reference.fields|);
        if r.Err? then Err(r.error) else Ok(Obj(r.value))
      else if HasEntries(reference) then Err(Unmodelled)
      else Ok(obj)
    case Arr(items) =>
      if reference.Arr? then
        var r := AfterItems(reference.items, items, |reference.items|);
        if r.Err? then Err(r.error) else Ok(Arr(r.value))
      else if HasEntries(reference) then Err(Unmodelled)
      else Ok(obj)
    case Null => if HasEntries(reference) then Err(TypeError) else Ok(Null)
    case _ => Ok(obj)
  }

  /** The object's fields after the first `n` keys of the reference. */
  function AfterEntries(es: Fields, fs: Fields, n: nat): (r: Result<Fields, SchemaError>)
    requires n <= |es|
    decreases Obj(fs), 0, n
  {
    if n == 0 then Ok(fs)
    else
      var prev := AfterEntries(es, fs, n - 1);
      if prev.Err? then prev
      else
        var (k, rv) := es[n - 1];
        var at := Find(fs, k);
        if at.None? then Ok(Put(prev.value, k, rv))
        else
          var sub := Appended(rv, fs[at.value].1);
          if sub.Err? then Err(sub.error) else Ok(Put(prev.value, k, sub.value))
  }

  /** The first error ends the loop: later keys are not visited. */
  lemma {:induction false} EntriesErrorSticks(es: Fields, fs: Fields, m: nat, n: nat)
    requires m <= n <= |es| && AfterEntries(es, fs, m).Err?
    ensures AfterEntries(es, fs, n) == AfterEntries(es, fs, m)
    decreases n
  {
    if m < n {
      EntriesErrorSticks(es, fs, m, n - 1);
    }
  }

  /** The array after the first `n` indices of the reference array. */
  function AfterItems(ritems: seq<Value>, items: seq<Value>, n: nat): (r: Result<seq<Value>, SchemaError>)
    requires n <= |ritems|
    ensures r.Ok? ==> |r.value| == if n <= |items| then |items| else n
    decreases Arr(items), 0, n
  {
    if n == 0 then Ok(items)
    else
      var prev := AfterItems(ritems, items, n - 1);
      if prev.Err? then prev
      else if n - 1 < |items| then
        var sub := Appended(ritems[n - 1], items[n - 1]);
        if sub.Err? then Err(sub.error) else Ok(prev.value[n - 1 := sub.value])
      else Ok(prev.value + [ritems[n - 1]])
  }

  /** The first error ends the loop: later indices are not visited. */
  lemma {:induction false} ItemsErrorSticks(ritems: seq<Value>, items: seq<Value>, m: nat, n: nat)
    requires m <= n <= |ritems| && AfterItems(ritems, items, m).Err?
    ensures AfterItems(ritems, items, n) == AfterItems(ritems, items, m)
    decreases n
  {
    if m < n {
      ItemsErrorSticks(ritems, items, m, n - 1);
    }
  }

  /** With distinct keys, `Lookup` reads the entry at each position. */
  lemma LookupAt(fs: Fields, j: nat)
    requires DistinctKeys(fs) && j < |fs|
    ensures Lookup(fs, fs[j].0) == fs[j].1
  {
    if j > 0 {
      assert fs[0].0 != fs[j].0;
      LookupAt(fs[1..], j - 1);
    }
  }

  lemma KeysPrefixStep(fs: Fields, n: nat)
    requires 0 < n <= |fs|
    ensures Keys(fs)[..n] == Keys(fs)[..n - 1] + [fs[n - 1].0]
  {
    KeysAt(fs, n - 1);
    TakeOneMore(Keys(fs), n - 1);
  }

  /**
   * After the first `n` keys of the reference: a key is present when the object
   * or one of those keys has it; a key the reference did not bring is as it
   * was, a new one is copied from the reference, and a shared one holds the
   * recursive append.
   */
  lemma {:induction false} EntriesLookup(es: Fields, fs: Fields, n: nat, k: String)
    requires n <= |es| && AfterEntries(es, fs, n).Ok?
    ensures k in Keys(AfterEntries(es, fs, n).value) <==> k in Keys(fs) || k in Keys(es)[..n]
    ensures k !in Keys(es)[..n] ==> Lookup(AfterEntries(es, fs, n).value, k) == Lookup(fs, k)
    ensures DistinctKeys(es) && k in Keys(es)[..n] && k !in Keys(fs) ==> Lookup(AfterEntries(es, fs, n).value, k) == Lookup(es, k)
    ensures DistinctKeys(es) && k in Keys(es)[..n] && k in Keys(fs) ==>
      Appended(Lookup(es, k), Lookup(fs, k)) == Ok(Lookup(AfterEntries(es, fs, n).value, k))
  {
    if n > 0 {
      var prev := AfterEntries(es, fs, n - 1);
      EntriesLookup(es, fs, n - 1, k);
      KeysPrefixStep(es, n);
      if DistinctKeys(es) {
        LookupAt(es, n - 1);
      }
      var (kk, rv) := es[n - 1];
      FindSpec(fs, kk);
      var at := Find(fs, kk);
      if at.None? {
        assert AfterEntries(es, fs, n).value == Put(prev.value, kk, rv);
      } else {
        var sub := Appended(rv, fs[at.value].1);
        assert sub.Ok?;
        assert AfterEntries(es, fs, n).value == Put(prev.value, kk, sub.value);
      }
      PutKeys(prev.value, kk, if at.None? then rv else Appended(rv, fs[at.value].1).value);
      PutLookup(prev.value, kk, if at.None? then rv else Appended(rv, fs[at.value].1).value, k);
    }
  }

  /** The recursive append of the reference's `j`-th key fails. */
  predicate EntryFails(es: Fields, fs: Fields, j: nat)
    requires j < |es|
  {
    es[j].0 in Keys(fs) && Appended(es[j].1, Lookup(fs, es[j].0)).Err?
  }

  /** The loop fails exactly when some shared key's recursive append fails. */
  lemma {:induction false} EntriesError(es: Fields, fs: Fields, n: nat)
    requires n <= |es|
    ensures AfterEntries(es, fs, n).Err? <==> exists j :: 0 <= j < n && EntryFails(es, fs, j)
  {
    if n > 0 {
      EntriesError(es, fs, n - 1);
      var prev := AfterEntries(es, fs, n - 1);
      if prev.Ok? {
        FindSpec(fs, es[n - 1].0);
        assert AfterEntries(es, fs, n).Err? <==> EntryFails(es, fs, n - 1);
      }
    }
  }

  /**
   * After the first `n` indices of the reference array: an index both arrays
   * have holds the recursive append, the rest of the target is kept, and the
   * indices past its end are copied from the reference.
   */
  lemma {:induction false} ItemsAt(ritems: seq<Value>, items: seq<Value>, n: nat, i: nat)
    requires n <= |ritems| && AfterItems(ritems, items, n).Ok?
    requires i < |AfterItems(ritems, items, n).value|
    ensures i < n && i < |items| ==> Appended(ritems[i], items[i]) == Ok(AfterItems(ritems, items, n).value[i])
    ensures n <= i ==> AfterItems(ritems, items, n).value[i] == items[i]
    ensures |items| <= i ==> AfterItems(ritems, items, n).value[i] == ritems[i]
  {
    if n > 0 {
      var prev := AfterItems(ritems, items, n - 1);
      if i < |prev.value| {
        ItemsAt(ritems, items, n - 1, i);
      }
    }
  }

  /** The array loop fails exactly when some shared index's recursive append fails. */
  lemma {:induction false} ItemsError(ritems: seq<Value>, items: seq<Value>, n: nat)
    requires n <= |ritems|
    ensures AfterItems(ritems, items, n).Err? <==>
      exists i :: 0 <= i < n && i < |items| && Appended(ritems[i], items[i]).Err?
  {
    if n > 0 {
      ItemsError(ritems, items, n - 1);
    }
  }

  /** `AppendFieldsToObject`, proved against `Appended`. */
  method AppendFieldsToObject(reference: Value, obj: Value) returns (r: Result<Value, SchemaError>)
    ensures r == Appended(reference, obj)
    decreases obj, 1, 0
  {
    if obj.Obj? && reference.Obj? {
      var fs := AppendToFields(reference.fields, obj.fields);
      r := if fs.Err? then Err(fs.error) else Ok(Obj(fs.value));
    } else if obj.Arr? && reference.Arr? {
      var items := AppendToItems(reference.items, obj.items);
      r := if items.Err? then Err(items.error) else Ok(Arr(items.value));
    } else if (obj.Obj? || obj.Arr?) && HasEntries(reference) {
      r := Err(Unmodelled);
    } else if obj.Null? && HasEntries(reference) {
      r := Err(TypeError);
    } else {
      r := Ok(obj);
    }
  }

  /** The `for..in` loop of `AppendFieldsToObject` over an object reference. */
  method AppendToFields(es: Fields, fs: Fields) returns (r: Result<Fields, SchemaError>)
    ensures r == AfterEntries(es, fs, |es|)
    decreases Obj(fs), 0, 0
  {
    var cur := fs;
    for i := 0 to |es|
      invariant AfterEntries(es, fs, i) == Ok(cur)
    {
      var (k, rv) := es[i];
      var at := Find(fs, k);
      if at.Some? {
        var sub := AppendFieldsToObject(rv, fs[at.value].1);
        if sub.Err? {
          EntriesErrorSticks(es, fs, i + 1, |es|);
          return Err(sub.error);
        }
        cur := Put(cur, k, sub.value);
      } else {
        cur := Put(cur, k, rv);
      }
    }
    return Ok(cur);
  }

  /** The `for..in` loop of `AppendFieldsToObject` over an array reference. */
  method AppendToItems(ritems: seq<Value>, items: seq<Value>) returns (r: Result<seq<Value>, SchemaError>)
    ensures r == AfterItems(ritems, items, |ritems|)
    decreases Arr(items), 0, 0
  {
    var cur := items;
    for i := 0 to |ritems|
      invariant AfterItems(ritems, items, i) == Ok(cur)
    {
      if i < |items| {
        var sub := AppendFieldsToObject(ritems[i], items[i]);
        if sub.Err? {
          ItemsErrorSticks(ritems, items, i + 1, |ritems|);
          return Err(sub.error);
        }
        cur := cur[i := sub.value];
      } else {
        cur := cur + [ritems[i]];
      }
    }
    return Ok(cur);
  }

  /**
   * Appending an object reference to an object: it fails exactly when the
   * recursive append of a shared key fails; otherwise the result has the keys
   * of both, a key only the object has keeps its value, a key only the
   * reference has is copied, and a shared key holds the recursive append.
   */
  lemma {:induction false} AppendedObject(reference: Value, obj: Value, k: String)
    requires reference.Obj? && obj.Obj? && DistinctKeys(reference.fields)
    ensures Appended(reference, obj).Err? <==>
      exists j :: 0 <= j < |reference.fields| && EntryFails(reference.fields, obj.fields, j)
    ensures Appended(reference, obj).Ok? ==>
      var out := Appended(reference, obj).value.fields;
      (k in Keys(out) <==> k in Keys(obj.fields) || k in Keys(reference.fields)) &&
      (k !in Keys(reference.fields) ==> Lookup(out, k) == Lookup(obj.fields, k)) &&
      (k in Keys(reference.fields) && k !in Keys(obj.fields) ==> Lookup(out, k) == Lookup(reference.fields, k)) &&
      (k in Keys(reference.fields) && k in Keys(obj.fields) ==>
        Appended(Lookup(reference.fields, k), Lookup(obj.fields, k)) == Ok(Lookup(out, k)))
  {
    var es := reference.fields;
    EntriesError(es, obj.fields, |es|);
    if AfterEntries(es, obj.fields, |es|).Ok? {
      assert Keys(es)[..|es|] == Keys(es);
      EntriesLookup(es, obj.fields, |es|, k);
    }
  }

  // ---------------------------------------------------------------------------
  // `MergeDefaults`.

  /** The keys `for..in` visits: an object's fields, none for `null`, `undefined` and other primitives. */
  function Entries(v: Value): (r: Result<Fields, SchemaError>)
    ensures r.Ok? && v.Obj? ==> r.value == v.fields
    ensures r.Ok? && !v.Obj? ==> r.value == []
    ensures r.Err? <==> !v.Obj? && HasEntries(v)
  {
    if v.Obj? then Ok(v.fields) else if HasEntries(v) then Err(Unmodelled) else Ok([])
  }

  /** Assigns the entries one after another into `acc`: the copy loops of `MergeDefaults`. */
  function PutAll(acc: Fields, es: Fields): Fields
    decreases es
  {
    if es == [] then acc else PutAll(Put(acc, es[0].0, es[0].1), es[1..])
  }

  /** The keys after copying are those of the target and of the entries. */
  lemma {:induction false} PutAllKeys(acc: Fields, es: Fields, k: String)
    ensures k in Keys(PutAll(acc, es)) <==> k in Keys(acc) || k in Keys(es)
    decreases es
  {
    if es != [] {
      PutKeys(acc, es[0].0, es[0].1);
      PutAllKeys(Put(acc, es[0].0, es[0].1), es[1..], k);
      assert Keys(es) == [es[0].0] + Keys(es[1..]);
    }
  }

  /** The head's key does not repeat in the tail of an object. */
  lemma DistinctTail(fs: Fields)
    requires fs != [] && DistinctKeys(fs)
    ensures DistinctKeys(fs[1..]) && fs[0].0 !in Keys(fs[1..])
  {
    forall j | 0 <= j < |fs[1..]|
      ensures fs[1..][j].0 != fs[0].0
    {
      assert fs[1..][j] == fs[j + 1];
    }
    FindSpec(fs[1..], fs[0].0);
  }

  /** A copied key reads as in the entries; any other as in the target. */
  lemma {:induction false} PutAllLookup(acc: Fields, es: Fields, k: String)
    requires DistinctKeys(es)
    ensures Lookup(PutAll(acc, es), k) == if k in Keys(es) then Lookup(es, k) else Lookup(acc, k)
    decreases es
  {
    if es != [] {
      DistinctTail(es);
      PutAllLookup(Put(acc, es[0].0, es[0].1), es[1..], k);
      PutLookup(acc, es[0].0, es[0].1, k);
      assert Keys(es) == [es[0].0] + Keys(es[1..]);
    }
  }

  /** `MergeDefaults(parentDefault, childDefault)`: the child's keys, then the parent's over them. */
  function MergedDefaults(parent: Value, child: Value): Result<Fields, SchemaError> {
    var c := Entries(child);
    if c.Err? then Err(c.error)
    else
      var p := Entries(parent);
      if p.Err? then Err(p.error)
      else Ok(PutAll(PutAll([], c.value), p.value))
  }

  /**
   * The merged default has the keys of both, and the parent's value wins
   * wherever both have a key.
   */
  lemma MergedDefaultsLookup(parent: Value, child: Value, k: String)
    requires MergedDefaults(parent, child).Ok?
    requires DistinctKeys(Entries(parent).value) && DistinctKeys(Entries(child).value)
    ensures var m := MergedDefaults(parent, child).value;
      (k in Keys(m) <==> k in Keys(Entries(parent).value) || k in Keys(Entries(child).value)) &&
      Lookup(m, k) == if k in Keys(Entries(parent).value) then Lookup(Entries(parent).value, k) else Lookup(Entries(child).value, k)
  {
    var c, p := Entries(child).value, Entries(parent).value;
    PutAllKeys([], c, k);
    PutAllKeys(PutAll([], c), p, k);
    PutAllLookup([], c, k);
    PutAllLookup(PutAll([], c), p, k);
    if k !in Keys(c) {
      LookupMissing(c, k);
    }
  }

  /** `MergeDefaults`, proved against `MergedDefaults`. */
  method MergeDefaults(parent: Value, child: Value) returns (r: Result<Fields, SchemaError>)
    ensures r == MergedDefaults(parent, child)
  {
    var c := Entries(child);
    if c.Err? {
      return Err(c.error);
    }
    var p := Entries(parent);
    if p.Err? {
      return Err(p.error);
    }
    var merged: Fields := [];
    var cs, ps := c.value, p.value;
    for i := 0 to |cs|
      invariant PutAll(merged, cs[i..]) == PutAll([], cs)
    {
      assert cs[i..][1..] == cs[i + 1..];
      merged := Put(merged, cs[i].0, cs[i].1);
    }
    var base := merged;
    for i := 0 to |ps|
      invariant PutAll(merged, ps[i..]) == PutAll(base, ps)
    {
      assert ps[i..][1..] == ps[i + 1..];
      merged := Put(merged, ps[i].0, ps[i].1);
    }
    return Ok(merged);
  }

  // ---------------------------------------------------------------------------
  // `UpdateDefaults`.

  /**
   * `v.hasOwnProperty('type') && v.type === 'object' && v.properties !== null`
   * for a value that is not `null` or `undefined`: an entry whose children
   * carry their own defaults.
   */
  predicate IsObjectSchema(v: Value) {
    v.Obj? && "type" in Keys(v.fields) && Lookup(v.fields, "type") == Str("object")
    && Lookup(v.fields, "properties") != Null
  }

  /** `key in defaults`; a primitive throws, and an answer that comes from a prototype is not modelled. */
  function HasKey(defaults: Value, key: String): (r: Result<bool, SchemaError>)
    ensures r == Ok(true) <==> defaults.Obj? && key in Keys(defaults.fields)
    ensures r == Ok(false) <==> defaults.Obj? && key !in Keys(defaults.fields) && key !in ObjectPrototypeNames
  {
    match defaults
    case Obj(fs) =>
      if key in Keys(fs) then Ok(true)
      else if key in ObjectPrototypeNames then Err(Unmodelled)
      else Ok(false)
    case Arr(_) => Err(Unmodelled)
    case _ => Err(TypeError)
  }

  /** `v[name] = x` in strict mode: assigning a property of a primitive throws. */
  function SetProperty(v: Value, name: String, x: Value): (r: Result<Value, SchemaError>)
    ensures v.Obj? ==> r.Ok? && r.value.Obj? && Lookup(r.value.fields, name) == x
    ensures !v.Obj? ==> r.Err?
  {
    match v
    case Obj(fs) => PutLookup(fs, name, x, name); Ok(Obj(Put(fs, name, x)))
    case Arr(_) => Err(Unmodelled)
    case _ => Err(TypeError)
  }

  /**
   * `UpdateDefaults(obj, defaults)`: pushes the defaults down into the
   * properties of a schema object. Without defaults (`null` or `undefined`)
   * nothing changes, and neither does a value `for..in` visits no key of.
   */
  function Updated(obj: Value, defaults: Value): (r: Result<Value, SchemaError>)
    ensures defaults.Undefined? || defaults.Null? ==> r == Ok(obj)
    ensures !obj.Obj? && !HasEntries(obj) ==> r == Ok(obj)
    ensures r.Ok? && obj.Obj? ==> r.value.Obj?
    decreases obj, 1, 0
  {
    if defaults.Undefined? || defaults.Null? then Ok(obj)
    else if obj.Obj? then
      var r := AfterUpdates(obj.fields, defaults, |obj.fields|);
      if r.Err? then Err(r.error) else Ok(Obj(r.value))
    else if HasEntries(obj) then Err(Unmodelled)
    else Ok(obj)
  }

  /** The object's fields after its first `n` keys. */
  function AfterUpdates(fs: Fields, defaults: Value, n: nat): (r: Result<Fields, SchemaError>)
    requires n <= |fs|
    ensures r.Ok? ==> |r.value| == |fs|
    decreases Obj(fs), 0, n
  {
    if n == 0 then Ok(fs)
    else
      var prev := AfterUpdates(fs, defaults, n - 1);
      if prev.Err? then prev
      else
        var sub := UpdatedEntry(fs[n - 1].0, fs[n - 1].1, defaults);
        if sub.Err? then Err(sub.error) else Ok(prev.value[n - 1 := (fs[n - 1].0, sub.value)])
  }

  /**
   * One key of `UpdateDefaults`: an obj schema gets its properties updated
   * with the defaults merged over its own `default`; any other entry whose key
   * the defaults have gets that default as its `default`.
   */
  function UpdatedEntry(key: String, v: Value, defaults: Value): Result<Value, SchemaError>
    decreases v, 2, 0
  {
    if v.Undefined? || v.Null? then Err(TypeError)
    else if IsObjectSchema(v) then
      var merged := MergedDefaults(defaults, Lookup(v.fields, "default"));
      if merged.Err? then Err(merged.error)
      else
        var at := Find(v.fields, "properties");
        var props := if at.None? then Ok(Undefined) else Updated(v.fields[at.value].1, Obj(merged.value));
        if props.Err? then Err(props.error) else Ok(Obj(Put(v.fields, "properties", props.value)))
    else
      var has := HasKey(defaults, key);
      if has.Err? then Err(has.error)
      else if has.value then SetProperty(v, "default", Lookup(defaults.fields, key))
      else Ok(v)
  }

  /** One more key of the loop. */
  lemma UpdatesStep(fs: Fields, defaults: Value, i: nat, cur: Fields)
    requires i < |fs| && AfterUpdates(fs, defaults, i) == Ok(cur)
    ensures AfterUpdates(fs, defaults, i + 1) ==
      var sub := UpdatedEntry(fs[i].0, fs[i].1, defaults);
      if sub.Err? then Err(sub.error) else Ok(cur[i := (fs[i].0, sub.value)])
  {
  }

  /** The first error ends the loop. */
  lemma {:induction false} UpdatesErrorSticks(fs: Fields, defaults: Value, m: nat, n: nat)
    requires m <= n <= |fs| && AfterUpdates(fs, defaults, m).Err?
    ensures AfterUpdates(fs, defaults, n) == AfterUpdates(fs, defaults, m)
    decreases n
  {
    if m < n {
      UpdatesErrorSticks(fs, defaults, m, n - 1);
    }
  }

  /**
   * After the first `n` keys each visited entry holds its update, keeps its key
   * and place, and the entries not yet visited are unchanged.
   */
  lemma {:induction false} UpdatesAt(fs: Fields, defaults: Value, n: nat, j: nat)
    requires n <= |fs| && j < |fs| && AfterUpdates(fs, defaults, n).Ok?
    ensures AfterUpdates(fs, defaults, n).value[j].0 == fs[j].0
    ensures j < n ==> UpdatedEntry(fs[j].0, fs[j].1, defaults) == Ok(AfterUpdates(fs, defaults, n).value[j].1)
    ensures n <= j ==> AfterUpdates(fs, defaults, n).value[j] == fs[j]
  {
    if n > 0 {
      UpdatesAt(fs, defaults, n - 1, j);
    }
  }

  /** The loop fails exactly when some entry's update fails. */
  lemma {:induction false} UpdatesError(fs: Fields, defaults: Value, n: nat)
    requires n <= |fs|
    ensures AfterUpdates(fs, defaults, n).Err? <==>
      exists j :: 0 <= j < n && UpdatedEntry(fs[j].0, fs[j].1, defaults).Err?
  {
    if n > 0 {
      UpdatesError(fs, defaults, n - 1);
    }
  }

  /**
   * With defaults present, every key of the obj is visited: the update
   * keeps its keys in place and fails exactly when one entry's update fails.
   */
  lemma UpdatedObject(fs: Fields, defaults: Value, j: nat)
    requires j < |fs| && !defaults.Undefined? && !defaults.Null?
    ensures Updated(Obj(fs), defaults).Err? <==>
      exists i :: 0 <= i < |fs| && UpdatedEntry(fs[i].0, fs[i].1, defaults).Err?
    ensures Updated(Obj(fs), defaults).Ok? ==>
      var out := Updated(Obj(fs), defaults).value.fields;
      |out| == |fs| && out[j].0 == fs[j].0 && UpdatedEntry(fs[j].0, fs[j].1, defaults) == Ok(out[j].1)
  {
    UpdatesError(fs, defaults, |fs|);
    if AfterUpdates(fs, defaults, |fs|).Ok? {
      UpdatesAt(fs, defaults, |fs|, j);
    }
  }

  /** Every entry must be an obj or a primitive: `null` and `undefined` entries throw. */
  lemma NullEntryThrows(key: String, v: Value, defaults: Value)
    requires v.Undefined? || v.Null?
    ensures UpdatedEntry(key, v, defaults) == Err(TypeError)
  {
  }

  /**
   * A plain obj entry whose key the defaults have gets that value as its
   * `default` and keeps every other property; one whose key they lack is kept.
   */
  lemma PlainEntryDefault(key: String, v: Value, defaults: Value, k: String)
    requires v.Obj? && !IsObjectSchema(v) && defaults.Obj?
    requires key in Keys(defaults.fields) || key !in ObjectPrototypeNames
    ensures UpdatedEntry(key, v, defaults).Ok?
    ensures key in Keys(defaults.fields) ==>
      Lookup(UpdatedEntry(key, v, defaults).value.fields, k) ==
        if k == "default" then Lookup(defaults.fields, key) else Lookup(v.fields, k)
    ensures key !in Keys(defaults.fields) ==> UpdatedEntry(key, v, defaults) == Ok(v)
  {
    PutLookup(v.fields, "default", Lookup(defaults.fields, key), k);
  }

  /**
   * An obj schema entry keeps every property but `properties`, which holds
   * its children updated with the defaults merged over the entry's own `default`.
   */
  lemma SchemaEntryDefault(key: String, v: Value, defaults: Value, k: String)
    requires IsObjectSchema(v) && UpdatedEntry(key, v, defaults).Ok?
    ensures var out := UpdatedEntry(key, v, defaults).value;
      var merged := MergedDefaults(defaults, Lookup(v.fields, "default"));
      out.Obj? && merged.Ok? &&
      (k != "properties" ==> Lookup(out.fields, k) == Lookup(v.fields, k)) &&
      Updated(Lookup(v.fields, "properties"), Obj(merged.value)) == Ok(Lookup(out.fields, "properties"))
  {
    var merged := MergedDefaults(defaults, Lookup(v.fields, "default"));
    FindSpec(v.fields, "properties");
    var at := Find(v.fields, "properties");
    if at.None? {
      LookupMissing(v.fields, "properties");
    }
    var props := if at.None? then Ok(Undefined) else Updated(v.fields[at.value].1, Obj(merged.value));
    assert props == Updated(Lookup(v.fields, "properties"), Obj(merged.value));
    assert UpdatedEntry(key, v, defaults) == Ok(Obj(Put(v.fields, "properties", props.value)));
    PutLookup(v.fields, "properties", props.value, k);
    PutLookup(v.fields, "properties", props.value, "properties");
  }

  /** `UpdateDefaults`, proved against `Updated`. */
  method UpdateDefaults(obj: Value, defaults: Value) returns (r: Result<Value, SchemaError>)
    ensures r == Updated(obj, defaults)
    decreases obj, 1, 0
  {
    if defaults.Undefined? || defaults.Null? {
      r := Ok(obj);
    } else if obj.Obj? {
      var fs := UpdateFields(obj.fields, defaults);
      r := if fs.Err? then Err(fs.error) else Ok(Obj(fs.value));
    } else if HasEntries(obj) {
      r := Err(Unmodelled);
    } else {
      r := Ok(obj);
    }
  }

  /** The `for..in` loop of `UpdateDefaults`. */
  method UpdateFields(fs: Fields, defaults: Value) returns (r: Result<Fields, SchemaError>)
    ensures r == AfterUpdates(fs, defaults, |fs|)
    decreases Obj(fs), 0, 0
  {
    var cur := fs;
    for i := 0 to |fs|
      invariant AfterUpdates(fs, defaults, i) == Ok(cur)
    {
      var sub := UpdateEntry(fs[i].0, fs[i].1, defaults);
      UpdatesStep(fs, defaults, i, cur);
      if sub.Err? {
        UpdatesErrorSticks(fs, defaults, i + 1, |fs|);
        return Err(sub.error);
      }
      cur := cur[i := (fs[i].0, sub.value)];
    }
    return Ok(cur);
  }

  /** The body of the `UpdateDefaults` loop for one key. */
  method UpdateEntry(key: String, v: Value, defaults: Value) returns (r: Result<Value, SchemaError>)
    ensures r == UpdatedEntry(key, v, defaults)
    decreases v, 2, 0
  {
    if v.Undefined? || v.Null? {
      return Err(TypeError);
    }
    if IsObjectSchema(v) {
      var merged := MergeDefaults(defaults, Lookup(v.fields, "default"));
      if merged.Err? {
        return Err(merged.error);
      }
      var at := Find(v.fields, "properties");
      var props: Result<Value, SchemaError> := Ok(Undefined);
      if at.Some? {
        props := UpdateDefaults(v.fields[at.value].1, Obj(merged.value));
      }
      if props.Err? {
        return Err(props.error);
      }
      return Ok(Obj(Put(v.fields, "properties", props.value)));
    }
    var has := HasKey(defaults, key);
    if has.Err? {
      return Err(has.error);
    }
    r := if has.value then SetProperty(v, "default", Lookup(defaults.fields, key)) else Ok(v);
  }

  // ---------------------------------------------------------------------------
  // The deep copy `JSON.parse(JSON.stringify(v))`.

  /** A value JSON can carry: no `undefined` anywhere in it. */
  predicate IsJson(v: Value)
    decreases v, 1, 0
  {
    match v
    case Undefined => false
    case Obj(fs) => forall i :: 0 <= i < |fs| ==> IsJson(fs[i].1)
    case Arr(items) => forall i :: 0 <= i < |items| ==> IsJson(items[i])
    case _ => true
  }

  /**
   * What a JSON round trip gives back for a nested value: properties holding
   * `undefined` are dropped and `undefined` array items become `null`.
   */
  function Copy(v: Value): (r: Value)
    ensures v.Obj? <==> r.Obj?
    ensures v.Arr? ==> r.Arr? && |r.items| == |v.items|
    ensures !v.Obj? && !v.Arr? ==> r == v
    decreases v, 1, 0
  {
    match v
    case Obj(fs) => Obj(CopyFields(fs, |fs|))
    case Arr(items) => Arr(CopyItems(items, |items|))
    case _ => v
  }

  function CopyFields(fs: Fields, n: nat): (r: Fields)
    requires n <= |fs|
    decreases Obj(fs), 0, n
  {
    if n == 0 then []
    else if fs[n - 1].1.Undefined? then CopyFields(fs, n - 1)
    else CopyFields(fs, n - 1) + [(fs[n - 1].0, Copy(fs[n - 1].1))]
  }

  function CopyItems(items: seq<Value>, n: nat): (r: seq<Value>)
    requires n <= |items|
    ensures |r| == n
    decreases Arr(items), 0, n
  {
    if n == 0 then []
    else CopyItems(items, n - 1) + [if items[n - 1].Undefined? then Null else Copy(items[n - 1])]
  }

  /** `JSON.parse(JSON.stringify(v))`: `undefined` stringifies to nothing, which does not parse. */
  function JsonCopy(v: Value): (r: Result<Value, SchemaError>)
    ensures r.Err? <==> v.Undefined?
  {
    if v.Undefined? then Err(SyntaxError) else Ok(Copy(v))
  }

  /** A JSON value survives the round trip unchanged. */
  lemma {:induction false} CopyJson(v: Value)
    requires IsJson(v)
    ensures Copy(v) == v
    decreases v, 1, 0
  {
    match v
    case Obj(fs) => CopyFieldsJson(fs, |fs|);
    case Arr(items) => CopyItemsJson(items, |items|);
    case _ =>
  }

  lemma {:induction false} CopyFieldsJson(fs: Fields, n: nat)
    requires n <= |fs| && forall i :: 0 <= i < |fs| ==> IsJson(fs[i].1)
    ensures CopyFields(fs, n) == fs[..n]
    decreases Obj(fs), 0, n
  {
    if n > 0 {
      CopyFieldsJson(fs, n - 1);
      CopyJson(fs[n - 1].1);
      TakeOneMore(fs, n - 1);
    }
  }

  lemma {:induction false} CopyItemsJson(items: seq<Value>, n: nat)
    requires n <= |items| && forall i :: 0 <= i < |items| ==> IsJson(items[i])
    ensures CopyItems(items, n) == items[..n]
    decreases Arr(items), 0, n
  {
    if n > 0 {
      CopyItemsJson(items, n - 1);
      CopyJson(items[n - 1]);
      TakeOneMore(items, n - 1);
    }
  }

  /** The copy of anything but `undefined` is a JSON value. */
  lemma {:induction false} CopyIsJson(v: Value)
    requires !v.Undefined?
    ensures IsJson(Copy(v))
    decreases v, 1, 0
  {
    match v
    case Obj(fs) => CopyFieldsIsJson(fs, |fs|);
    case Arr(items) => CopyItemsIsJson(items, |items|);
    case _ =>
  }

  lemma {:induction false} CopyFieldsIsJson(fs: Fields, n: nat)
    requires n <= |fs|
    ensures forall i :: 0 <= i < |CopyFields(fs, n)| ==> IsJson(CopyFields(fs, n)[i].1)
    decreases Obj(fs), 0, n
  {
    if n > 0 {
      CopyFieldsIsJson(fs, n - 1);
      if !fs[n - 1].1.Undefined? {
        CopyIsJson(fs[n - 1].1);
      }
    }
  }

  lemma {:induction false} CopyItemsIsJson(items: seq<Value>, n: nat)
    requires n <= |items|
    ensures forall i :: 0 <= i < n ==> IsJson(CopyItems(items, n)[i])
    decreases Arr(items), 0, n
  {
    if n > 0 {
      CopyItemsIsJson(items, n - 1);
      if !items[n - 1].Undefined? {
        CopyIsJson(items[n - 1]);
      }
    }
  }

  lemma {:induction false} KeysAppend(a: Fields, b: Fields)
    ensures Keys(a + b) == Keys(a) + Keys(b)
  {
    if a != [] {
      KeysAppend(a[1..], b);
      assert a + b == [a[0]] + (a[1..] + b);
      assert a == [a[0]] + a[1..];
      KeysCons(a[0], a[1..] + b);
      KeysCons(a[0], a[1..]);
      calc {
        Keys(a + b);
        [a[0].0] + Keys(a[1..] + b);
        [a[0].0] + (Keys(a[1..]) + Keys(b));
        { SeqAssoc([a[0].0], Keys(a[1..]), Keys(b)); }
        ([a[0].0] + Keys(a[1..])) + Keys(b);
        Keys(a) + Keys(b);
      }
    } else {
      assert a + b == b;
    }
  }

  lemma {:induction false} CopyFieldsKeys(fs: Fields, n: nat, k: String)
    requires n <= |fs| && k in Keys(CopyFields(fs, n))
    ensures k in Keys(fs)
  {
    if n > 0 {
      var prev := CopyFields(fs, n - 1);
      if !fs[n - 1].1.Undefined? {
        KeysAppend(prev, [(fs[n - 1].0, Copy(fs[n - 1].1))]);
        KeysAt(fs, n - 1);
      }
      if k in Keys(prev) {
        CopyFieldsKeys(fs, n - 1, k);
      }
    }
  }

  /** The copy has no key the original lacks. */
  lemma CopyKeys(v: Value, k: String)
    ensures Copy(v).Obj? <==> v.Obj?
    ensures v.Obj? && k in Keys(Copy(v).fields) ==> k in Keys(v.fields)
  {
    if v.Obj? && k in Keys(Copy(v).fields) {
      CopyFieldsKeys(v.fields, |v.fields|, k);
    }
  }

  /** Copying twice gives what copying once does. */
  lemma JsonCopyIdempotent(v: Value)
    requires !v.Undefined?
    ensures JsonCopy(Copy(v)) == JsonCopy(v)
  {
    CopyIsJson(v);
    CopyJson(Copy(v));
  }

  // ---------------------------------------------------------------------------
  // `ReplaceReferences`.

  /** The definitions as they stand after resolving, and the value resolved. */
  datatype Resolved = Resolved(defs: Fields, value: Value)

  /** `v.hasOwnProperty('$ref')`. */
  predicate HasRef(v: Value) {
    v.Obj? && "$ref" in Keys(v.fields)
  }

  /** The last `/`-separated segment of a `$ref`, as in "#/definitions/ObjectName". */
  function RefName(ref: String): String {
    var parts := Split(ref, "/");
    parts[|parts| - 1]
  }

  /** A reference written as a path names its last segment. */
  lemma RefNameOfPath(path: String, name: String)
    requires forall i :: 0 <= i < |name| ==> name[i] != '/'
    ensures RefName(path + "/" + name) == name
  {
    SplitAppend(path, name, '/');
    SplitCharAbsent(name, '/');
  }

  /**
   * `ReplaceReferences(definitions, objects)` with the definitions passed as a
   * value: every entry of `objects` that has a `$ref` gets the fields of the
   * definition it names, resolved first, and loses the `$ref`; an object
   * schema entry then has its properties resolved and their defaults updated.
   * Each nested resolution spends one unit of `fuel`.
   */
  function Replaced(defs: Fields, objects: Value, fuel: nat): (r: Result<Resolved, SchemaError>)
    ensures !objects.Obj? && !HasEntries(objects) ==> r == Ok(Resolved(defs, objects))
    decreases fuel, 2, 0
  {
    if objects.Obj? then
      var r := AfterReplace(defs, objects.fields, |objects.fields|, fuel);
      if r.Err? then Err(r.error) else Ok(Resolved(r.value.0, Obj(r.value.1)))
    else if HasEntries(objects) then Err(Unmodelled)
    else Ok(Resolved(defs, objects))
  }

  /** The definitions and the object's fields after its first `n` keys. */
  function AfterReplace(defs: Fields, fs: Fields, n: nat, fuel: nat): (r: Result<(Fields, Fields), SchemaError>)
    requires n <= |fs|
    ensures r.Ok? ==> |r.value.1| == |fs|
    decreases fuel, 1, n
  {
    if n == 0 then Ok((defs, fs))
    else
      var prev := AfterReplace(defs, fs, n - 1, fuel);
      if prev.Err? then prev
      else
        var sub := ReplacedEntry(prev.value.0, fs[n - 1].1, fuel);
        if sub.Err? then Err(sub.error)
        else Ok((sub.value.defs, prev.value.1[n - 1 := (fs[n - 1].0, sub.value.value)]))
  }

  /** One key of `ReplaceReferences`: the `$ref` step, then the properties step. */
  function ReplacedEntry(defs: Fields, v: Value, fuel: nat): Result<Resolved, SchemaError>
    decreases fuel, 0, 1
  {
    if v.Undefined? || v.Null? then Err(TypeError)
    else
      var first := ResolvedRef(defs, v, fuel);
      if first.Err? || !IsObjectSchema(first.value.value) then first
      else ReplacedProperties(first.value.defs, first.value.value, fuel)
  }

  /**
   * An entry with a `$ref`: the named definition is resolved and stored back,
   * a deep copy of it is appended to the entry, and the `$ref` is deleted.
   * A `$ref` that is not a string has no `split` and throws.
   */
  function ResolvedRef(defs: Fields, v: Value, fuel: nat): (r: Result<Resolved, SchemaError>)
    ensures !HasRef(v) ==> r == Ok(Resolved(defs, v))
    ensures r.Ok? && HasRef(v) ==> r.value.value.Obj?
    decreases fuel, 0, 0
  {
    if !HasRef(v) then Ok(Resolved(defs, v))
    else
      var ref := Lookup(v.fields, "$ref");
      if !ref.Str? then Err(TypeError)
      else
        var name := RefName(ref.s);
        if name !in Keys(defs) && name in ObjectPrototypeNames then Err(Unmodelled)
        else if fuel == 0 then Err(OutOfFuel)
        else
          var target := Replaced(defs, Lookup(defs, name), fuel - 1);
          if target.Err? then Err(target.error)
          else
            var copy := JsonCopy(target.value.value);
            if copy.Err? then Err(copy.error)
            else
              var appended := Appended(copy.value, v);
              if appended.Err? then Err(appended.error)
              else
                Ok(Resolved(Put(target.value.defs, name, target.value.value),
                            Obj(Remove(appended.value.fields, "$ref"))))
  }

  /**
   * An object schema entry: its properties are resolved, and then updated with
   * the entry's own `default` (assigning `properties` leaves `default` as it was).
   */
  function ReplacedProperties(defs: Fields, v: Value, fuel: nat): (r: Result<Resolved, SchemaError>)
    requires IsObjectSchema(v)
    ensures r.Ok? ==> r.value.value.Obj?
    decreases fuel, 0, 0
  {
    if fuel == 0 then Err(OutOfFuel)
    else
      var inner := Replaced(defs, Lookup(v.fields, "properties"), fuel - 1);
      if inner.Err? then Err(inner.error)
      else
        var fs := Put(v.fields, "properties", inner.value.value);
        var updated := Updated(inner.value.value, Lookup(v.fields, "default"));
        if updated.Err? then Err(updated.error)
        else Ok(Resolved(inner.value.defs, Obj(Put(fs, "properties", updated.value))))
  }

  /** One more key of the loop. */
  lemma ReplaceStep(defs: Fields, fs: Fields, fuel: nat, i: nat, d: Fields, cur: Fields)
    requires i < |fs| && AfterReplace(defs, fs, i, fuel) == Ok((d, cur))
    ensures AfterReplace(defs, fs, i + 1, fuel) ==
      var sub := ReplacedEntry(d, fs[i].1, fuel);
      if sub.Err? then Err(sub.error) else Ok((sub.value.defs, cur[i := (fs[i].0, sub.value.value)]))
  {
  }

  /** The first error ends the loop. */
  lemma {:induction false} ReplaceErrorSticks(defs: Fields, fs: Fields, fuel: nat, m: nat, n: nat)
    requires m <= n <= |fs| && AfterReplace(defs, fs, m, fuel).Err?
    ensures AfterReplace(defs, fs, n, fuel) == AfterReplace(defs, fs, m, fuel)
    decreases n
  {
    if m < n {
      ReplaceErrorSticks(defs, fs, fuel, m, n - 1);
    }
  }

  /** A resolved entry never keeps a `$ref`. */
  lemma ReplacedEntryNoRef(defs: Fields, v: Value, fuel: nat)
    requires ReplacedEntry(defs, v, fuel).Ok?
    ensures !HasRef(ReplacedEntry(defs, v, fuel).value.value)
  {
    var first := ResolvedRef(defs, v, fuel);
    if HasRef(v) {
      var appended := Appended(JsonCopy(Replaced(defs, Lookup(defs, RefName(Lookup(v.fields, "$ref").s)), fuel - 1).value.value).value, v);
      RemoveKeys(appended.value.fields, "$ref", "$ref");
    }
    if IsObjectSchema(first.value.value) {
      var fs := first.value.value.fields;
      var inner := Replaced(first.value.defs, Lookup(fs, "properties"), fuel - 1).value.value;
      var updated := Updated(inner, Lookup(fs, "default")).value;
      PutKeys(fs, "properties", inner);
      PutKeys(Put(fs, "properties", inner), "properties", updated);
    }
  }

  /**
   * After the first `n` keys every entry keeps its key and place, the visited
   * ones have no `$ref` left, and the others are unchanged.
   */
  lemma {:induction false} ReplaceAt(defs: Fields, fs: Fields, n: nat, fuel: nat, j: nat)
    requires n <= |fs| && j < |fs| && AfterReplace(defs, fs, n, fuel).Ok?
    ensures AfterReplace(defs, fs, n, fuel).value.1[j].0 == fs[j].0
    ensures j < n ==> !HasRef(AfterReplace(defs, fs, n, fuel).value.1[j].1)
    ensures n <= j ==> AfterReplace(defs, fs, n, fuel).value.1[j] == fs[j]
  {
    if n > 0 {
      var prev := AfterReplace(defs, fs, n - 1, fuel);
      ReplaceAt(defs, fs, n - 1, fuel, j);
      if j == n - 1 {
        ReplacedEntryNoRef(prev.value.0, fs[n - 1].1, fuel);
      }
    }
  }

  /**
   * Resolving an object keeps its keys in place and leaves none of its
   * entries with a `$ref`.
   */
  lemma ReplacedNoRefs(defs: Fields, fs: Fields, fuel: nat, j: nat)
    requires j < |fs| && Replaced(defs, Obj(fs), fuel).Ok?
    ensures var out := Replaced(defs, Obj(fs), fuel).value.value;
      out.Obj? && |out.fields| == |fs| && out.fields[j].0 == fs[j].0 && !HasRef(out.fields[j].1)
  {
    ReplaceAt(defs, fs, |fs|, fuel, j);
  }

  /**
   * Resolving a `$ref` entry stores the resolved definition back under its
   * name, keeps every other own key of the entry, and keeps the value of each
   * key the definition does not have.
   */
  lemma ResolvedRefFields(defs: Fields, v: Value, fuel: nat, k: String)
    requires HasRef(v) && ResolvedRef(defs, v, fuel).Ok?
    ensures var ref := Lookup(v.fields, "$ref");
      var out := ResolvedRef(defs, v, fuel).value;
      ref.Str? && fuel > 0 &&
      var target := Replaced(defs, Lookup(defs, RefName(ref.s)), fuel - 1).value.value;
      out.value.Obj? && "$ref" !in Keys(out.value.fields) &&
      Lookup(out.defs, RefName(ref.s)) == target &&
      (k != "$ref" && k in Keys(v.fields) ==> k in Keys(out.value.fields)) &&
      (k != "$ref" && !(target.Obj? && k in Keys(target.fields)) ==> Lookup(out.value.fields, k) == Lookup(v.fields, k))
  {
    var ref := Lookup(v.fields, "$ref");
    var name := RefName(ref.s);
    var target := Replaced(defs, Lookup(defs, name), fuel - 1).value;
    var copy := JsonCopy(target.value).value;
    var appended := Appended(copy, v).value;
    PutLookup(target.defs, name, target.value, name);
    RemoveKeys(appended.fields, "$ref", k);
    RemoveKeys(appended.fields, "$ref", "$ref");
    if k != "$ref" {
      RemoveLookup(appended.fields, "$ref", k);
    }
    if copy.Obj? {
      var es := copy.fields;
      EntriesLookup(es, v.fields, |es|, k);
      assert Keys(es)[..|es|] == Keys(es);
      CopyKeys(target.value, k);
    }
  }

  /** `ReplaceReferences`, proved against `Replaced`. */
  method ReplaceReferences(defs: Fields, objects: Value, fuel: nat) returns (r: Result<Resolved, SchemaError>)
    ensures r == Replaced(defs, objects, fuel)
    decreases fuel, 2, 0
  {
    if objects.Obj? {
      var x := ReplaceFields(defs, objects.fields, fuel);
      r := if x.Err? then Err(x.error) else Ok(Resolved(x.value.0, Obj(x.value.1)));
    } else if HasEntries(objects) {
      r := Err(Unmodelled);
    } else {
      r := Ok(Resolved(defs, objects));
    }
  }

  /** The `for..in` loop of `ReplaceReferences`. */
  method ReplaceFields(defs: Fields, fs: Fields, fuel: nat) returns (r: Result<(Fields, Fields), SchemaError>)
    ensures r == AfterReplace(defs, fs, |fs|, fuel)
    decreases fuel, 1, 0
  {
    var d, cur := defs, fs;
    for i := 0 to |fs|
      invariant AfterReplace(defs, fs, i, fuel) == Ok((d, cur))
    {
      var sub := ReplaceEntry(d, fs[i].1, fuel);
      ReplaceStep(defs, fs, fuel, i, d, cur);
      if sub.Err? {
        ReplaceErrorSticks(defs, fs, fuel, i + 1, |fs|);
        return Err(sub.error);
      }
      d, cur := sub.value.defs, cur[i := (fs[i].0, sub.value.value)];
    }
    return Ok((d, cur));
  }

  /** The body of the `ReplaceReferences` loop for one key. */
  method ReplaceEntry(defs: Fields, v: Value, fuel: nat) returns (r: Result<Resolved, SchemaError>)
    ensures r == ReplacedEntry(defs, v, fuel)
    decreases fuel, 0, 1
  {
    if v.Undefined? || v.Null? {
      return Err(TypeError);
    }
    r := ResolveRef(defs, v, fuel);
    if r.Ok? && IsObjectSchema(r.value.value) {
      r := ReplaceProperties(r.value.defs, r.value.value, fuel);
    }
  }

  /** The `$ref` step of the loop body. */
  method ResolveRef(defs: Fields, v: Value, fuel: nat) returns (r: Result<Resolved, SchemaError>)
    ensures r == ResolvedRef(defs, v, fuel)
    decreases fuel, 0, 0
  {
    if !HasRef(v) {
      return Ok(Resolved(defs, v));
    }
    var ref := Lookup(v.fields, "$ref");
    if !ref.Str? {
      return Err(TypeError);
    }
    var name := RefName(ref.s);
    if name !in Keys(defs) && name in ObjectPrototypeNames {
      return Err(Unmodelled);
    }
    if fuel == 0 {
      return Err(OutOfFuel);
    }
    var target := ReplaceReferences(defs, Lookup(defs, name), fuel - 1);
    if target.Err? {
      return Err(target.error);
    }
    var copy := JsonCopy(target.value.value);
    if copy.Err? {
      return Err(copy.error);
    }
    var appended := AppendFieldsToObject(copy.value, v);
    if appended.Err? {
      return Err(appended.error);
    }
    r := Ok(Resolved(Put(target.value.defs, name, target.value.value), Obj(Remove(appended.value.fields, "$ref"))));
  }

  /** The properties step of the loop body. */
  method ReplaceProperties(defs: Fields, v: Value, fuel: nat) returns (r: Result<Resolved, SchemaError>)
    requires IsObjectSchema(v)
    ensures r == ReplacedProperties(defs, v, fuel)
    decreases fuel, 0, 0
  {
    if fuel == 0 {
      return Err(OutOfFuel);
    }
    var inner := ReplaceReferences(defs, Lookup(v.fields, "properties"), fuel - 1);
    if inner.Err? {
      return Err(inner.error);
    }
    var fs := Put(v.fields, "properties", inner.value.value);
    var updated := UpdateDefaults(inner.value.value, Lookup(v.fields, "default"));
    if updated.Err? {
      return Err(updated.error);
    }
    r := Ok(Resolved(inner.value.defs, Obj(Put(fs, "properties", updated.value))));
  }

  // ---------------------------------------------------------------------------
  // `mergeReferences`.

  /**
   * `baseDefinitions[key]` is truthy: an own definition that is, or one of the
   * `inherited` names, which every object has through its prototype.
   */
  predicate Defined(base: Fields, key: String, inherited: set<String>) {
    if key in Keys(base) then Truthy(Lookup(base, key)) else key in inherited
  }

  /** The message `mergeReferences` throws for a key both files define. */
  function DuplicateMessage(key: String): String {
    "Error: '" + key + "' defined in multiple schema files."
  }

  /**
   * `mergeReferences(baseDefinitions, additionalDefinitions)`: copies the
   * additional definitions into the base, throwing at the first key the base
   * already defines. The truthiness test also fires for inherited names.
   */
  function MergedReferences(base: Fields, additional: Value): Result<Fields, SchemaError> {
    Merged(base, additional, ObjectPrototypeNames)
  }

  /** `mergeReferences` with the duplicate test asking only for own definitions. */
  function MergedOwnReferences(base: Fields, additional: Value): Result<Fields, SchemaError> {
    Merged(base, additional, {})
  }

  function Merged(base: Fields, additional: Value, inherited: set<String>): (r: Result<Fields, SchemaError>)
    ensures Entries(additional).Err? ==> r == Err(Entries(additional).error)
    ensures Entries(additional) == Ok([]) ==> r == Ok(base)
  {
    var es := Entries(additional);
    if es.Err? then Err(es.error) else AfterMerge(base, es.value, |es.value|, inherited)
  }

  /** The base after the first `n` additional definitions. */
  function AfterMerge(base: Fields, es: Fields, n: nat, inherited: set<String>): Result<Fields, SchemaError>
    requires n <= |es|
  {
    if n == 0 then Ok(base)
    else
      var prev := AfterMerge(base, es, n - 1, inherited);
      if prev.Err? then prev
      else if Defined(prev.value, es[n - 1].0, inherited) then Err(Thrown(DuplicateMessage(es[n - 1].0)))
      else Ok(Put(prev.value, es[n - 1].0, es[n - 1].1))
  }

  /** A key of an object with distinct keys is not among the keys before it. */
  lemma NotEarlier(es: Fields, n: nat)
    requires 0 < n <= |es| && DistinctKeys(es)
    ensures es[n - 1].0 !in Keys(es)[..n - 1]
  {
    var ks := Keys(es)[..n - 1];
    forall i | 0 <= i < |ks|
      ensures ks[i] != es[n - 1].0
    {
      KeysAt(es, i);
    }
  }

  /**
   * After the first `n` additional definitions, if none failed: the base holds
   * the keys of both, an additional key reads its new definition and every
   * other key its old one.
   */
  lemma {:induction false} MergeContents(base: Fields, es: Fields, n: nat, inherited: set<String>, k: String)
    requires n <= |es| && DistinctKeys(es) && AfterMerge(base, es, n, inherited).Ok?
    ensures var out := AfterMerge(base, es, n, inherited).value;
      (k in Keys(out) <==> k in Keys(base) || k in Keys(es)[..n]) &&
      Lookup(out, k) == if k in Keys(es)[..n] then Lookup(es, k) else Lookup(base, k)
  {
    if n > 0 {
      var kk := es[n - 1].0;
      var prev := AfterMerge(base, es, n - 1, inherited);
      MergeContents(base, es, n - 1, inherited, k);
      KeysPrefixStep(es, n);
      PutKeys(prev.value, kk, es[n - 1].1);
      PutLookup(prev.value, kk, es[n - 1].1, k);
      LookupAt(es, n - 1);
    }
  }

  /** An additional key not merged yet is defined in the merged base exactly when in the original one. */
  lemma DefinedBeforeMerge(base: Fields, es: Fields, n: nat, inherited: set<String>)
    requires 0 < n <= |es| && DistinctKeys(es) && AfterMerge(base, es, n - 1, inherited).Ok?
    ensures Defined(AfterMerge(base, es, n - 1, inherited).value, es[n - 1].0, inherited) == Defined(base, es[n - 1].0, inherited)
  {
    NotEarlier(es, n);
    MergeContents(base, es, n - 1, inherited, es[n - 1].0);
  }

  /** The base defines none of the first `n` additional keys. */
  predicate NoneDefined(base: Fields, es: Fields, n: nat, inherited: set<String>)
    requires n <= |es|
  {
    forall j :: 0 <= j < n ==> !Defined(base, es[j].0, inherited)
  }

  /** The merge succeeds exactly when the base defines none of the additional keys. */
  lemma {:induction false} MergeSucceeds(base: Fields, es: Fields, n: nat, inherited: set<String>)
    requires n <= |es| && DistinctKeys(es)
    ensures AfterMerge(base, es, n, inherited).Ok? <==> NoneDefined(base, es, n, inherited)
  {
    if n > 0 {
      MergeSucceeds(base, es, n - 1, inherited);
      assert NoneDefined(base, es, n, inherited) <==>
        NoneDefined(base, es, n - 1, inherited) && !Defined(base, es[n - 1].0, inherited);
      if AfterMerge(base, es, n - 1, inherited).Ok? {
        DefinedBeforeMerge(base, es, n, inherited);
      }
    }
  }

  /** The `j`-th additional key is the first one the base already defines. */
  predicate FirstDefined(base: Fields, es: Fields, j: nat, inherited: set<String>) {
    j < |es| && Defined(base, es[j].0, inherited) && NoneDefined(base, es, j, inherited)
  }

  /** A failed merge names the first additional key the base already defines. */
  lemma {:induction false} MergeFailure(base: Fields, es: Fields, n: nat, inherited: set<String>)
    requires n <= |es| && DistinctKeys(es) && AfterMerge(base, es, n, inherited).Err?
    ensures exists j :: 0 <= j < n && FirstDefined(base, es, j, inherited) && AfterMerge(base, es, n, inherited).error == Thrown(DuplicateMessage(es[j].0))
  {
    var prev := AfterMerge(base, es, n - 1, inherited);
    if prev.Err? {
      MergeFailure(base, es, n - 1, inherited);
      assert AfterMerge(base, es, n, inherited) == prev;
    } else {
      MergeSucceeds(base, es, n - 1, inherited);
      DefinedBeforeMerge(base, es, n, inherited);
      assert FirstDefined(base, es, n - 1, inherited);
    }
  }

  /**
   * `mergeReferences` succeeds exactly when the base defines none of the
   * additional keys, and then every additional definition is in the base and
   * every other definition is kept; otherwise it throws naming the first
   * additional key the base defines.
   */
  lemma MergedReferencesSpec(base: Fields, additional: Value, inherited: set<String>, k: String)
    requires additional.Obj? && DistinctKeys(additional.fields)
    ensures var es := additional.fields;
      (Merged(base, additional, inherited).Ok? <==> NoneDefined(base, es, |es|, inherited)) &&
      (Merged(base, additional, inherited).Ok? ==>
        var out := Merged(base, additional, inherited).value;
        (k in Keys(out) <==> k in Keys(base) || k in Keys(es)) &&
        Lookup(out, k) == if k in Keys(es) then Lookup(es, k) else Lookup(base, k))
    ensures Merged(base, additional, inherited).Err? ==> exists j: nat :: FirstDefined(base, additional.fields, j, inherited) && Merged(base, additional, inherited).error == Thrown(DuplicateMessage(additional.fields[j].0))
  {
    var es := additional.fields;
    MergeSucceeds(base, es, |es|, inherited);
    if Merged(base, additional, inherited).Err? {
      MergeFailure(base, es, |es|, inherited);
    }
    if Merged(base, additional, inherited).Ok? {
      MergeContents(base, es, |es|, inherited, k);
      assert Keys(es)[..|es|] == Keys(es);
    }
  }

  /**
   * As written the test reads `baseDefinitions[key]`, which is truthy for the
   * names every object inherits: an additional definition named `constructor`
   * is reported as a duplicate although the base defines nothing.
   */
  lemma InheritedNameReported()
    ensures MergedReferences([], Obj([("constructor", Obj([]))])) == Err(Thrown(DuplicateMessage("constructor")))
  {
    var es := [("constructor", Obj([]))];
    assert Keys([]) == [];
    assert Defined([], "constructor", ObjectPrototypeNames);
    assert AfterMerge([], es, 1, ObjectPrototypeNames) == Err(Thrown(DuplicateMessage("constructor")));
  }

  /** Asking for own definitions accepts it. */
  lemma InheritedNameAccepted()
    ensures MergedOwnReferences([], Obj([("constructor", Obj([]))])) == Ok([("constructor", Obj([]))])
  {
    var es := [("constructor", Obj([]))];
    assert Keys([]) == [];
    assert !Defined([], "constructor", {});
    assert AfterMerge([], es, 1, {}) == Ok(Put([], "constructor", Obj([])));
  }

  /** Both tests agree when no additional key is an inherited name the base lacks. */
  lemma {:induction false} MergeTestsAgree(base: Fields, es: Fields, n: nat, inherited: set<String>)
    requires n <= |es| && DistinctKeys(es)
    requires forall j :: 0 <= j < |es| ==> es[j].0 in Keys(base) || es[j].0 !in inherited
    ensures AfterMerge(base, es, n, inherited) == AfterMerge(base, es, n, {})
  {
    if n > 0 {
      MergeTestsAgree(base, es, n - 1, inherited);
      var prev := AfterMerge(base, es, n - 1, {});
      if prev.Ok? {
        DefinedBeforeMerge(base, es, n, {});
        DefinedBeforeMerge(base, es, n, inherited);
      }
    }
  }

  /** `mergeReferences`, proved against `MergedReferences`. */
  method MergeReferences(base: Fields, additional: Value) returns (r: Result<Fields, SchemaError>)
    ensures r == MergedReferences(base, additional)
  {
    var entries := Entries(additional);
    if entries.Err? {
      return Err(entries.error);
    }
    var es := entries.value;
    var cur := base;
    for i := 0 to |es|
      invariant AfterMerge(base, es, i, ObjectPrototypeNames) == Ok(cur)
    {
      if Defined(cur, es[i].0, ObjectPrototypeNames) {
        MergeErrorSticks(base, es, ObjectPrototypeNames, i + 1, |es|);
        return Err(Thrown(DuplicateMessage(es[i].0)));
      }
      cur := Put(cur, es[i].0, es[i].1);
    }
    return Ok(cur);
  }

  /** The first error ends the loop. */
  lemma {:induction false} MergeErrorSticks(base: Fields, es: Fields, inherited: set<String>, m: nat, n: nat)
    requires m <= n <= |es| && AfterMerge(base, es, m, inherited).Err?
    ensures AfterMerge(base, es, n, inherited) == AfterMerge(base, es, m, inherited)
    decreases n
  {
    if m < n {
      MergeErrorSticks(base, es, inherited, m, n - 1);
    }
  }
}
