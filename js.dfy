/**
 * The slice of JavaScript value semantics the handlers rely on: truthiness,
 * `toString`, object spread and `Object.assign`, and the lodash helpers
 * `isEmpty`, `values`, `get`, `has` and `forIn`. Objects are kept as their
 * list of own enumerable properties in insertion order.
 */
module Js {
  import opened Wrappers
  import opened Text

  datatype JsValue =
    | Undefined
    | Null
    | Bool(b: bool)
    | Num(n: int)
    | Str(s: string)
    | Arr(elems: seq<JsValue>)
    | Obj(fields: seq<Entry>)

  /** One own property of an object. */
  datatype Entry = Entry(key: string, value: JsValue)

  /** `!!v`. */
  predicate Truthy(v: JsValue)
  {
    match v
    case Undefined => false
    case Null => false
    case Bool(b) => b
    case Num(n) => n != 0
    case Str(s) => s != ""
    case Arr(_) => true
    case Obj(_) => true
  }

  /** `v == null`: the values whose property reads throw. */
  predicate Nullish(v: JsValue)
  {
    v == Undefined || v == Null
  }

  /** Truthiness of a string-or-undefined. */
  predicate Present(s: Option<string>)
  {
    s.Some? && s.value != ""
  }

  /** `a || b` on strings-or-undefined: `a` when it is truthy, else `b` whatever `b` is. */
  function Or(a: Option<string>, b: Option<string>): (r: Option<string>)
    ensures Present(a) ==> r == a
    ensures !Present(a) ==> r == b
  {
    if Present(a) then a else b
  }

  /** A string, or `undefined` when absent. */
  function OptStr(s: Option<string>): JsValue
  {
    if s.Some? then Str(s.value) else Undefined
  }

  // ---------------------------------------------------------------------------
  // Objects

  function Keys(fields: seq<Entry>): set<string>
  {
    set e | e in fields :: e.key
  }

  /** No key occurs twice: the entries describe a JavaScript object. */
  predicate WellKeyed(fields: seq<Entry>)
  {
    forall i, j :: 0 <= i < j < |fields| ==> fields[i].key != fields[j].key
  }

  /** `obj[k]`: the value of property `k`, or `undefined` when there is none. */
  function Lookup(fields: seq<Entry>, k: string): (v: JsValue)
    ensures k !in Keys(fields) ==> v == Undefined
  {
    if fields == [] then Undefined
    else if fields[0].key == k then fields[0].value
    else Lookup(fields[1..], k)
  }

  lemma {:induction false} LookupAt(fields: seq<Entry>, i: nat)
    requires WellKeyed(fields) && i < |fields|
    ensures Lookup(fields, fields[i].key) == fields[i].value
  {
    if i > 0 {
      LookupAt(fields[1..], i - 1);
    }
  }

  /**
   * `{...obj, [k]: v}` and `Object.assign(obj, {[k]: v})`: an existing property
   * keeps its position and takes the new value; a new one goes last.
   */
  function Put(fields: seq<Entry>, k: string, v: JsValue): (r: seq<Entry>)
    ensures Lookup(r, k) == v
    ensures |r| <= |fields| + 1
  {
    if fields == [] then [Entry(k, v)]
    else if fields[0].key == k then [Entry(k, v)] + fields[1..]
    else [fields[0]] + Put(fields[1..], k, v)
  }

  /** Writing the same property twice is writing it once. */
  lemma {:induction false} PutTwice(fields: seq<Entry>, k: string, v: JsValue)
    ensures Put(Put(fields, k, v), k, v) == Put(fields, k, v)
  {
    if fields != [] && fields[0].key != k {
      PutTwice(fields[1..], k, v);
      assert Put(fields, k, v)[1..] == Put(fields[1..], k, v);
    }
  }

  /** Every other property of the object is left as it was. */
  lemma {:induction false} PutOther(fields: seq<Entry>, k: string, v: JsValue, k': string)
    requires k' != k
    ensures Lookup(Put(fields, k, v), k') == Lookup(fields, k')
  {
    if fields != [] && fields[0].key != k {
      PutOther(fields[1..], k, v, k');
    }
  }

  lemma KeysCons(e: Entry, s: seq<Entry>)
    ensures Keys([e] + s) == {e.key} + Keys(s)
  {
    var r := [e] + s;
    forall x | x in r ensures x == e || x in s { }
  }

  lemma WellKeyedCons(e: Entry, s: seq<Entry>)
    ensures WellKeyed([e] + s) <==> e.key !in Keys(s) && WellKeyed(s)
  {
    var r := [e] + s;
    if WellKeyed(r) {
      forall x | x in s ensures x.key != e.key {
        var m :| 0 <= m < |s| && s[m] == x;
        assert r[0] == e && r[m + 1] == x;
      }
      forall i, j | 0 <= i < j < |s| ensures s[i].key != s[j].key {
        assert r[i + 1] == s[i] && r[j + 1] == s[j];
      }
    }
    if e.key !in Keys(s) && WellKeyed(s) {
      forall i, j | 0 <= i < j < |r| ensures r[i].key != r[j].key {
        assert r[j] == s[j - 1] && r[j] in s;
        if i > 0 {
          assert r[i] == s[i - 1];
        }
      }
    }
  }

  /** Spreading adds exactly the one key. */
  lemma {:induction false} PutKeys(fields: seq<Entry>, k: string, v: JsValue)
    ensures Keys(Put(fields, k, v)) == Keys(fields) + {k}
  {
    if fields != [] {
      var rest := fields[1..];
      assert fields == [fields[0]] + rest;
      KeysCons(fields[0], rest);
      if fields[0].key == k {
        KeysCons(Entry(k, v), rest);
      } else {
        PutKeys(rest, k, v);
        KeysCons(fields[0], Put(rest, k, v));
      }
    }
  }

  /** Spreading keeps keys unique. */
  lemma {:induction false} PutWellKeyed(fields: seq<Entry>, k: string, v: JsValue)
    requires WellKeyed(fields)
    ensures WellKeyed(Put(fields, k, v))
  {
    if fields != [] {
      var rest := fields[1..];
      assert fields == [fields[0]] + rest;
      WellKeyedCons(fields[0], rest);
      if fields[0].key == k {
        WellKeyedCons(Entry(k, v), rest);
      } else {
        PutWellKeyed(rest, k, v);
        PutKeys(rest, k, v);
        WellKeyedCons(fields[0], Put(rest, k, v));
      }
    }
  }

  lemma {:induction false} PutFresh(fields: seq<Entry>, k: string, v: JsValue)
    requires k !in Keys(fields)
    ensures Put(fields, k, v) == fields + [Entry(k, v)]
  {
    if fields != [] {
      assert fields[0] in fields;
      assert Keys(fields[1..]) <= Keys(fields) by {
        forall e | e in fields[1..] ensures e in fields { }
      }
      PutFresh(fields[1..], k, v);
    }
  }

  /** The first entry with a key is the one `obj[key]` reads. */
  lemma {:induction false} LookupOfMember(fields: seq<Entry>, k: string)
    requires k in Keys(fields)
    ensures Entry(k, Lookup(fields, k)) in fields
  {
    if fields[0].key != k {
      var e :| e in fields && e.key == k;
      assert e in fields[1..];
      LookupOfMember(fields[1..], k);
      assert Entry(k, Lookup(fields[1..], k)) in fields[1..];
    }
  }

  /** On a well-keyed object, spreading one key replaces that key's entry and keeps all others. */
  lemma {:induction false} PutMembers(fields: seq<Entry>, k: string, v: JsValue, e: Entry)
    requires WellKeyed(fields)
    ensures e in Put(fields, k, v) <==> e == Entry(k, v) || (e in fields && e.key != k)
  {
    if fields != [] {
      var rest := fields[1..];
      assert fields == [fields[0]] + rest;
      WellKeyedCons(fields[0], rest);
      if fields[0].key == k {
        if e in rest {
          assert e.key in Keys(rest);
        }
      } else {
        PutMembers(rest, k, v, e);
      }
    }
  }

  /** `v.k` on a value that is not null or undefined: only plain objects have named properties here. */
  function Member(v: JsValue, k: string): JsValue
  {
    if v.Obj? then Lookup(v.fields, k) else Undefined
  }

  /** lodash `get(v, path)`: walks the path, giving `undefined` as soon as a step is missing. */
  function GetPath(v: JsValue, path: seq<string>): (r: JsValue)
    ensures (v == Undefined || v == Null) && path != [] ==> r == Undefined
    decreases |path|
  {
    if path == [] then v
    else if v.Obj? then GetPath(Lookup(v.fields, path[0]), path[1..])
    else Undefined
  }

  /** lodash `get(v, path, d)`: the default replaces only an `undefined` result. */
  function GetOr(v: JsValue, path: seq<string>, d: JsValue): (r: JsValue)
    ensures GetPath(v, path) == Undefined ==> r == d
    ensures GetPath(v, path) != Undefined ==> r == GetPath(v, path)
  {
    var found := GetPath(v, path);
    if found == Undefined then d else found
  }

  /** lodash `has(v, k)` for a key that is not an array index. */
  predicate HasKey(v: JsValue, k: string)
  {
    v.Obj? && k in Keys(v.fields)
  }

  /** The properties `{...v}` copies. */
  function SpreadEntries(v: JsValue): (r: seq<Entry>)
    ensures v.Obj? ==> r == v.fields
    ensures !v.Obj? && !v.Arr? && !v.Str? ==> r == []
  {
    match v
    case Obj(f) => f
    case Arr(es) => seq(|es|, i requires 0 <= i < |es| => Entry(IntToString(i), es[i]))
    case Str(s) => seq(|s|, i requires 0 <= i < |s| => Entry(IntToString(i), Str([s[i]])))
    case _ => []
  }

  // ---------------------------------------------------------------------------
  // toString, isEmpty, values, includes

  /** The TypeError message for reading property `prop` of null or undefined. */
  function ReadOfNullish(v: JsValue, prop: string): string
  {
    "Cannot read properties of " + (if v == Null then "null" else "undefined") + " (reading '" + prop + "')"
  }

  /** The TypeError message for calling something that is not a function. */
  function NotAFunction(callee: string): string
  {
    callee + " is not a function"
  }

  /**
   * `String(v)`, except that null and undefined give "" as they do inside
   * `Array.prototype.join`; arrays are joined with commas.
   */
  function StringOf(v: JsValue): string
    decreases v, 1, 0
  {
    match v
    case Undefined => ""
    case Null => ""
    case Bool(b) => if b then "true" else "false"
    case Num(n) => IntToString(n)
    case Str(s) => s
    case Arr(es) => JoinFrom(v, 0)
    case Obj(_) => "[object Object]"
  }

  function JoinFrom(a: JsValue, i: nat): string
    requires a.Arr? && i <= |a.elems|
    decreases a, 0, |a.elems| - i
  {
    if i == |a.elems| then ""
    else if i + 1 == |a.elems| then StringOf(a.elems[i])
    else StringOf(a.elems[i]) + "," + JoinFrom(a, i + 1)
  }

  /** `v.toString()`: throws on null and undefined. */
  function ToJsString(v: JsValue): (r: Attempt<string>)
    ensures r.Threw? <==> v == Undefined || v == Null
  {
    if v == Undefined || v == Null then Threw(ReadOfNullish(v, "toString"))
    else Returned(StringOf(v))
  }

  /** lodash `isEmpty(v)`: numbers and booleans count as empty, like null and undefined. */
  predicate LodashIsEmpty(v: JsValue)
  {
    match v
    case Str(s) => |s| == 0
    case Arr(es) => |es| == 0
    case Obj(f) => |f| == 0
    case _ => true
  }

  /** lodash `values(v)`: own enumerable property values, in order. */
  function LodashValues(v: JsValue): (r: seq<JsValue>)
    ensures v.Obj? ==> |r| == |v.fields| && forall i :: 0 <= i < |r| ==> r[i] == v.fields[i].value
  {
    match v
    case Obj(f) => seq(|f|, i requires 0 <= i < |f| => f[i].value)
    case Arr(es) => es
    case Str(s) => seq(|s|, i requires 0 <= i < |s| => Str([s[i]]))
    case _ => []
  }

  /**
   * `<receiver>.includes(x)` where the receiver variable is called `receiver`:
   * substring search on strings, element search on arrays, a TypeError otherwise.
   */
  function Includes(v: JsValue, x: string, receiver: string): (r: Attempt<bool>)
    ensures v.Str? ==> r == Returned(Contains(v.s, x))
    ensures v.Arr? ==> r == Returned(Str(x) in v.elems)
    ensures !v.Str? && !v.Arr? ==> r.Threw?
  {
    match v
    case Str(s) => Returned(Contains(s, x))
    case Arr(es) => Returned(Str(x) in es)
    case Undefined => Threw(ReadOfNullish(v, "includes"))
    case Null => Threw(ReadOfNullish(v, "includes"))
    case _ => Threw(NotAFunction(receiver + ".includes"))
  }

  /** The test of mutationOmics' forIn: `!isEmpty(value.toString())`, which throws on null and undefined. */
  function ToStringNonEmpty(v: JsValue): (r: Attempt<bool>)
    ensures r.Threw? <==> v == Undefined || v == Null
    ensures r.Returned? ==> (r.value <==> StringOf(v) != "")
  {
    match ToJsString(v)
    case Threw(m) => Threw(m)
    case Returned(s) => Returned(s != "")
  }

  /** The test of manipulationEcr's forIn: `!isEmpty(value)`, which never throws. */
  function NotLodashEmpty(v: JsValue): (r: Attempt<bool>)
    ensures r.Returned? && (r.value <==> !LodashIsEmpty(v))
  {
    Returned(!LodashIsEmpty(v))
  }

  // ---------------------------------------------------------------------------
  // forIn + assign: copying the properties a test keeps

  /**
   * The object `forIn(input, (value, key) => { if (keep(value)) assign(out, {[key]: value}) })`
   * leaves in `out`, or the error the test threw first.
   */
  function Stripped(fields: seq<Entry>, keep: JsValue -> Attempt<bool>): Attempt<seq<Entry>>
    decreases |fields|
  {
    if fields == [] then Returned([])
    else
      var prev := Stripped(fields[..|fields| - 1], keep);
      var e := fields[|fields| - 1];
      if prev.Threw? then prev
      else
        match keep(e.value)
        case Threw(m) => Threw(m)
        case Returned(k) => if k then Returned(Put(prev.value, e.key, e.value)) else prev
  }

  /** The entries whose value the test keeps, in order. */
  function Kept(fields: seq<Entry>, keep: JsValue -> Attempt<bool>): seq<Entry>
    decreases |fields|
  {
    if fields == [] then []
    else
      var init := Kept(fields[..|fields| - 1], keep);
      if keep(fields[|fields| - 1].value) == Returned(true) then init + [fields[|fields| - 1]] else init
  }

  /** The loop of forIn, with the copy done by assign. */
  method StripEntries(fields: seq<Entry>, keep: JsValue -> Attempt<bool>) returns (r: Attempt<seq<Entry>>)
    ensures r == Stripped(fields, keep)
  {
    var out: seq<Entry> := [];
    var i := 0;
    while i < |fields|
      invariant 0 <= i <= |fields|
      invariant Stripped(fields[..i], keep) == Returned(out)
    {
      var e := fields[i];
      assert fields[..i + 1][..i] == fields[..i];
      var k := keep(e.value);
      if k.Threw? {
        ThrewPersists(fields, i + 1, keep);
        return Threw(k.message);
      }
      if k.value {
        out := Put(out, e.key, e.value);
      }
      i := i + 1;
    }
    assert fields[..i] == fields;
    r := Returned(out);
  }

  /** Once the test has thrown, the rest of the object is not visited. */
  lemma {:induction false} ThrewPersists(fields: seq<Entry>, n: nat, keep: JsValue -> Attempt<bool>)
    requires n <= |fields| && Stripped(fields[..n], keep).Threw?
    ensures Stripped(fields, keep) == Stripped(fields[..n], keep)
    decreases |fields| - n
  {
    if n < |fields| {
      var init := fields[..|fields| - 1];
      assert init[..n] == fields[..n];
      ThrewPersists(init, n, keep);
    } else {
      assert fields[..n] == fields;
    }
  }

  lemma {:induction false} KeptKeys(fields: seq<Entry>, keep: JsValue -> Attempt<bool>)
    ensures Keys(Kept(fields, keep)) <= Keys(fields)
    decreases |fields|
  {
    if fields != [] {
      var init := fields[..|fields| - 1];
      KeptKeys(init, keep);
      assert Keys(init) <= Keys(fields) by {
        forall e | e in init ensures e in fields { }
      }
      assert fields[|fields| - 1] in fields;
    }
  }

  /** On an object whose values the test never throws on, stripping is filtering. */
  lemma {:induction false} StrippedIsKept(fields: seq<Entry>, keep: JsValue -> Attempt<bool>)
    requires WellKeyed(fields)
    requires forall e :: e in fields ==> keep(e.value).Returned?
    ensures Stripped(fields, keep) == Returned(Kept(fields, keep))
    decreases |fields|
  {
    if fields != [] {
      var init := fields[..|fields| - 1];
      var last := fields[|fields| - 1];
      assert WellKeyed(init);
      forall e | e in init ensures keep(e.value).Returned? {
        assert e in fields;
      }
      StrippedIsKept(init, keep);
      assert last in fields;
      if keep(last.value) == Returned(true) {
        KeptKeys(init, keep);
        assert last.key !in Keys(init) by {
          forall e | e in init ensures e.key != last.key {
            var j :| 0 <= j < |init| && init[j] == e;
            assert fields[j] == e;
          }
        }
        PutFresh(Kept(init, keep), last.key, last.value);
      }
    }
  }

  /** The kept entries are exactly the input entries the test keeps: values unchanged, no keys added. */
  lemma {:induction false} KeptMembers(fields: seq<Entry>, keep: JsValue -> Attempt<bool>, e: Entry)
    ensures e in Kept(fields, keep) <==> e in fields && keep(e.value) == Returned(true)
    decreases |fields|
  {
    if fields != [] {
      var init := fields[..|fields| - 1];
      KeptMembers(init, keep, e);
      assert fields == init + [fields[|fields| - 1]];
    }
  }

  /** Stripping throws exactly when the test throws on some value. */
  lemma {:induction false} StrippedThrows(fields: seq<Entry>, keep: JsValue -> Attempt<bool>)
    ensures Stripped(fields, keep).Threw? <==> exists e :: e in fields && keep(e.value).Threw?
    decreases |fields|
  {
    if fields != [] {
      var init := fields[..|fields| - 1];
      StrippedThrows(init, keep);
      assert fields == init + [fields[|fields| - 1]];
    }
  }

  /** Whatever the test, stripping builds an object with unique keys. */
  lemma {:induction false} StrippedWellKeyed(fields: seq<Entry>, keep: JsValue -> Attempt<bool>)
    requires Stripped(fields, keep).Returned?
    ensures WellKeyed(Stripped(fields, keep).value)
    decreases |fields|
  {
    if fields != [] {
      var init := fields[..|fields| - 1];
      var e := fields[|fields| - 1];
      StrippedWellKeyed(init, keep);
      if keep(e.value) == Returned(true) {
        PutWellKeyed(Stripped(init, keep).value, e.key, e.value);
      }
    }
  }
}
