/**
  JavaScript values as far as the ORM observes them: the primitives, the
  client's record references, plain objects with ordered own keys, and arrays.
  An object is the sequence of its own enumerable string-keyed entries in key
  order, so `Object.keys`, `Object.assign`, spreads and `for ... in` all see
  the order the model keeps.
 */
module Values {
  import opened Wrappers

  datatype Value =
    | Undefined
    | Null
    | Bool(b: bool)
    | Num(n: int)
    | Str(s: string)
      /** The client's structured record reference: table plus local key. */
    | RecordId(table: string, key: string)
    | Obj(entries: seq<Entry>)
    | Arr(items: seq<Value>)

  datatype Entry = Entry(key: string, value: Value)

  /** A plain object: its own entries in key order. */
  type Object = seq<Entry>

  /** `v == null` in JavaScript: reading a property of such a value throws. */
  predicate Nullish(v: Value) {
    v.Undefined? || v.Null?
  }

  /** JavaScript truthiness, as used by `!x`, `x || y` and `if (x)`. */
  predicate Truthy(v: Value) {
    match v
    case Undefined => false
    case Null => false
    case Bool(b) => b
    case Num(n) => n != 0
    case Str(s) => s != ""
    case _ => true
  }

  function Keys(o: Object): (ks: seq<string>)
    ensures |ks| == |o|
    ensures forall i :: 0 <= i < |o| ==> ks[i] == o[i].key
  {
    seq(|o|, i requires 0 <= i < |o| => o[i].key)
  }

  /** `Object.prototype.hasOwnProperty.call(o, k)`. */
  predicate Has(o: Object, k: string) {
    exists i :: 0 <= i < |o| && o[i].key == k
  }

  /**
    The own value of key `k`. Objects built by the model never list a key
    twice; for a value handed in by the client that does, the later entry wins,
    as the later of two writes would.
   */
  function Lookup(o: Object, k: string): (r: Option<Value>)
    ensures r.Some? <==> Has(o, k)
  {
    if o == [] then None
    else if o[|o| - 1].key == k then Some(o[|o| - 1].value)
    else
      assert forall i :: 0 <= i < |o| - 1 ==> o[..|o| - 1][i] == o[i];
      Lookup(o[..|o| - 1], k)
  }

  /** The property read `o[k]`: `undefined` when `o` has no such own key. */
  function Get(o: Object, k: string): Value {
    Lookup(o, k).GetOr(Undefined)
  }

  /** Rewrites every entry of `k` to hold `v`, leaving the keys and their order alone. */
  function Overwrite(o: Object, k: string, v: Value): (r: Object)
    ensures |r| == |o|
    ensures forall i :: 0 <= i < |o| ==> r[i].key == o[i].key
    ensures Has(o, k) ==> Lookup(r, k) == Some(v)
    ensures forall j :: j != k ==> Lookup(r, j) == Lookup(o, j)
  {
    if o == [] then []
    else
      var last := o[|o| - 1];
      var init := Overwrite(o[..|o| - 1], k, v);
      var r := init + [if last.key == k then Entry(k, v) else last];
      assert r[..|r| - 1] == init;
      assert forall i :: 0 <= i < |o| - 1 ==> o[..|o| - 1][i] == o[i];
      r
  }

  /**
    The assignment `o[k] = v`: an existing key is overwritten where it stands,
    a new key is appended after all existing ones.
   */
  function Put(o: Object, k: string, v: Value): (r: Object)
    ensures Lookup(r, k) == Some(v)
    ensures forall j :: j != k ==> Lookup(r, j) == Lookup(o, j)
    ensures Has(o, k) ==> Keys(r) == Keys(o)
    ensures !Has(o, k) ==> Keys(r) == Keys(o) + [k]
  {
    if Has(o, k) then Overwrite(o, k, v)
    else
      var r := o + [Entry(k, v)];
      assert r[..|r| - 1] == o;
      r
  }

  /**
    `Object.assign(o, s)`: the entries of `s` are written onto `o` one by one,
    in the order of `s`.
   */
  function Assign(o: Object, s: Object): (r: Object)
    ensures forall k :: Lookup(r, k) == if Has(s, k) then Lookup(s, k) else Lookup(o, k)
    ensures Keys(o) <= Keys(r)
  {
    if s == [] then o
    else
      var last := s[|s| - 1];
      var init := s[..|s| - 1];
      assert forall i :: 0 <= i < |s| - 1 ==> init[i] == s[i];
      Put(Assign(o, init), last.key, last.value)
  }

  /** The decimal digits of `n`, as `String(n)` writes them. */
  function NatToString(n: nat): (r: string)
    ensures |r| > 0
    decreases n
  {
    if n < 10 then ["0123456789"[n]]
    else NatToString(n / 10) + ["0123456789"[n % 10]]
  }

  function IntToString(n: int): string {
    if n < 0 then "-" + NatToString(-n) else NatToString(n)
  }

  /** `parts.join(sep)`. */
  function Join(parts: seq<string>, sep: string): string {
    if parts == [] then ""
    else if |parts| == 1 then parts[0]
    else parts[0] + sep + Join(parts[1..], sep)
  }

  /** Joining two non-empty lists puts exactly one separator between their joins. */
  lemma {:induction false} JoinAppend(a: seq<string>, b: seq<string>, sep: string)
    requires |a| > 0 && |b| > 0
    ensures Join(a + b, sep) == Join(a, sep) + sep + Join(b, sep)
  {
    if |a| == 1 {
      assert (a + b)[1..] == b;
    } else {
      assert (a + b)[1..] == a[1..] + b;
      JoinAppend(a[1..], b, sep);
    }
  }

  /** When every entry of `k` holds `v`, reading `k` gives `v` (or nothing when `k` is absent). */
  lemma {:induction false} LookupUniform(o: Object, k: string, v: Value)
    requires forall i :: 0 <= i < |o| && o[i].key == k ==> o[i].value == v
    ensures Lookup(o, k) == if Has(o, k) then Some(v) else None
  {
    if o != [] && o[|o| - 1].key != k {
      var init := o[..|o| - 1];
      assert forall i :: 0 <= i < |init| ==> init[i] == o[i];
      LookupUniform(init, k, v);
    }
  }

  /** `String.prototype.toLowerCase`, restricted to the ASCII letters. */
  function Lower(s: string): (r: string)
    ensures |r| == |s|
  {
    seq(|s|, i requires 0 <= i < |s| => if 'A' <= s[i] <= 'Z' then (s[i] as int + 32) as char else s[i])
  }

  /**
    The own enumerable entries `Object.assign` and spreads copy out of a source
    value: an object's entries, a record reference's `tb` and `id` fields, an
    array's or a string's index entries, and nothing for the other primitives.
   */
  function OwnEntries(v: Value): Object {
    match v
    case Obj(es) => es
    case RecordId(t, k) => [Entry("tb", Str(t)), Entry("id", Str(k))]
    case Arr(items) => seq(|items|, i requires 0 <= i < |items| => Entry(NatToString(i), items[i]))
    case Str(s) => seq(|s|, i requires 0 <= i < |s| => Entry(NatToString(i), Str([s[i]])))
    case _ => []
  }

  /** The optional member read `v?.name`: `undefined` on a nullish value or a missing key. */
  function Member(v: Value, name: string): Value {
    Get(OwnEntries(v), name)
  }

  /** The optional index read `v?.[i]`. */
  function At(v: Value, i: nat): Value {
    match v
    case Arr(items) => if i < |items| then items[i] else Undefined
    case Str(s) => if i < |s| then Str([s[i]]) else Undefined
    case _ => Member(v, NatToString(i))
  }

  /**
    `String(v)` / `v.toString()` for a value that is not nullish; an array
    renders its nullish items as empty strings, as `Array.prototype.join` does.
   */
  function ToStr(v: Value): string {
    match v
    case Undefined => ""
    case Null => ""
    case Bool(b) => if b then "true" else "false"
    case Num(n) => IntToString(n)
    case Str(s) => s
    case RecordId(t, k) => t + ":" + k
    case Obj(_) => "[object Object]"
    case Arr(items) => Join(seq(|items|, i requires 0 <= i < |items| => ToStr(items[i])), ",")
  }

  /** `String(n)` starts with a decimal digit. */
  lemma {:induction false} NatToStringStartsWithDigit(n: nat)
    ensures '0' <= NatToString(n)[0] <= '9'
    decreases n
  {
    if n >= 10 {
      NatToStringStartsWithDigit(n / 10);
    }
  }

  /** An array's own keys are its indices, so a name that does not start with a digit is never one of them. */
  lemma NoNamedMemberOnArrays(items: seq<Value>, name: string)
    requires name != [] && !('0' <= name[0] <= '9')
    ensures Member(Arr(items), name) == Undefined
  {
    var es := OwnEntries(Arr(items));
    forall i | 0 <= i < |es|
      ensures es[i].key != name
    {
      NatToStringStartsWithDigit(i);
    }
  }
}
