/** PHP runtime semantics the modelled code relies on: values, ordered arrays,
    truthiness, string casts and the few string functions it calls. */
module Php {

  datatype Option<T> = None | Some(value: T)

  /** A PHP array key: an integer or a string. */
  datatype Key = IntKey(i: int) | StrKey(s: string)

  /** The PHP values the modelled code handles (floats and objects are not modelled). */
  datatype Value = Null | Bool(b: bool) | Int(i: int) | Str(s: string) | Arr(entries: seq<(Key, Value)>)

  /** A PHP array: its entries in insertion order. */
  type PhpArray = seq<(Key, Value)>

  // ---------------------------------------------------------------------------
  // Ordered arrays

  function Keys(a: PhpArray): (ks: seq<Key>)
    ensures |ks| == |a|
    ensures forall i {:trigger ks[i]} :: 0 <= i < |a| ==> ks[i] == a[i].0
  {
    seq(|a|, i requires 0 <= i < |a| => a[i].0)
  }

  /** Every key occurs once, as in every PHP array. */
  predicate UniqueKeys(a: PhpArray) {
    forall i, j :: 0 <= i < j < |a| ==> a[i].0 != a[j].0
  }

  /** The position of `k` in `a`: the first entry with that key. */
  function KeyIndex(a: PhpArray, k: Key): (i: nat)
    requires k in Keys(a)
    ensures i < |a| && a[i].0 == k
    ensures forall j :: 0 <= j < i ==> a[j].0 != k
  {
    if a[0].0 == k then 0
    else
      assert Keys(a[1..]) == Keys(a)[1..];
      1 + KeyIndex(a[1..], k)
  }

  /** `$a[k]`: the value stored under `k`, if any. */
  function Lookup(a: PhpArray, k: Key): (r: Option<Value>)
    ensures r.Some? <==> k in Keys(a)
  {
    if k in Keys(a) then Some(a[KeyIndex(a, k)].1) else None
  }

  lemma LookupAt(a: PhpArray, k: Key, i: nat)
    requires i < |a| && a[i].0 == k
    requires forall j :: 0 <= j < i ==> a[j].0 != k
    ensures Lookup(a, k) == Some(a[i].1)
  {
    assert Keys(a)[i] == k;
  }

  /** `$a[k] = v`: an existing key keeps its position, a new key is appended. */
  function Put(a: PhpArray, k: Key, v: Value): (r: PhpArray)
    ensures Keys(r) == if k in Keys(a) then Keys(a) else Keys(a) + [k]
    ensures forall i :: 0 <= i < |a| && a[i].0 != k ==> r[i] == a[i]
  {
    if k in Keys(a) then a[KeyIndex(a, k) := (k, v)] else a + [(k, v)]
  }

  lemma PutLookup(a: PhpArray, k: Key, v: Value, k': Key)
    ensures Lookup(Put(a, k, v), k') == if k' == k then Some(v) else Lookup(a, k')
  {
    var r := Put(a, k, v);
    if k' == k {
      var i := if k in Keys(a) then KeyIndex(a, k) else |a|;
      forall j | 0 <= j < i ensures r[j].0 != k {
        assert Keys(a)[j] == a[j].0;
      }
      LookupAt(r, k, i);
    } else if k' in Keys(a) {
      LookupAt(r, k', KeyIndex(a, k'));
    } else {
      assert k' !in Keys(r);
    }
  }

  /** Entries of a prefix are found first. */
  lemma LookupPrefix(a: PhpArray, b: PhpArray, k: Key)
    requires k in Keys(a)
    ensures Lookup(a + b, k) == Lookup(a, k)
  {
    LookupAt(a + b, k, KeyIndex(a, k));
  }

  /** Entries of a suffix are found when the prefix does not hold the key. */
  lemma LookupSuffix(a: PhpArray, b: PhpArray, k: Key)
    requires k !in Keys(a)
    ensures Lookup(a + b, k) == Lookup(b, k)
  {
    KeysAppend(a, b);
    if k in Keys(b) {
      var i := KeyIndex(b, k);
      forall j | 0 <= j < |a| + i ensures (a + b)[j].0 != k {
        if j < |a| {
          assert Keys(a)[j] == a[j].0;
        }
      }
      LookupAt(a + b, k, |a| + i);
    }
  }

  /** The entry of a middle part is found when the part before it does not hold the key. */
  lemma LookupMiddle(a: PhpArray, b: PhpArray, c: PhpArray, k: Key)
    requires k !in Keys(a) && k in Keys(b)
    ensures Lookup(a + b + c, k) == Lookup(b, k)
  {
    LookupPrefix(b, c, k);
    LookupSuffix(a, b + c, k);
    assert a + b + c == a + (b + c);
  }

  /** `$a + $b`: the left operand in its own order, then every entry of the right
      operand whose key is not yet present, in the right operand's order. */
  function Union(a: PhpArray, b: PhpArray): (r: PhpArray)
    ensures |a| <= |r| && r[..|a|] == a
    decreases |b|
  {
    if b == [] then a
    else
      var a' := if b[0].0 in Keys(a) then a else a + [b[0]];
      var r := Union(a', b[1..]);
      assert r[..|a|] == r[..|a'|][..|a|];
      r
  }

  lemma {:induction false} UnionKeys(a: PhpArray, b: PhpArray)
    ensures forall k :: k in Keys(Union(a, b)) <==> k in Keys(a) || k in Keys(b)
    decreases |b|
  {
    if b != [] {
      assert Keys(b) == [b[0].0] + Keys(b[1..]);
      var a' := if b[0].0 in Keys(a) then a else a + [b[0]];
      assert Keys(a') == if b[0].0 in Keys(a) then Keys(a) else Keys(a) + [b[0].0];
      UnionKeys(a', b[1..]);
    }
  }

  /** `+` never overrides a value of its left operand. */
  lemma UnionLeftBiased(a: PhpArray, b: PhpArray, k: Key)
    requires k in Keys(a)
    ensures Lookup(Union(a, b), k) == Lookup(a, k)
  {
    var r := Union(a, b);
    assert r == r[..|a|] + r[|a|..];
    LookupPrefix(a, r[|a|..], k);
  }

  /** The value the last entry of `e` with key `k` carries. */
  function Latest(e: PhpArray, k: Key): (r: Option<Value>)
    ensures r.Some? <==> k in Keys(e)
  {
    if e == [] then None
    else
      assert Keys(e) == Keys(e[..|e| - 1]) + [e[|e| - 1].0];
      if e[|e| - 1].0 == k then Some(e[|e| - 1].1)
      else Latest(e[..|e| - 1], k)
  }

  /** The last entry of a key is the one `Latest` finds. */
  lemma {:induction false} LatestAt(e: PhpArray, i: nat)
    requires i < |e| && forall j :: i < j < |e| ==> e[j].0 != e[i].0
    ensures Latest(e, e[i].0) == Some(e[i].1)
  {
    if i < |e| - 1 {
      var init := e[..|e| - 1];
      LatestAt(init, i);
    }
  }

  /** `foreach ($e as [$k, $v]) { $a[$k] = $v; }` */
  function PutAll(a: PhpArray, e: PhpArray): (r: PhpArray)
    ensures |a| <= |r| && Keys(r)[..|a|] == Keys(a)
  {
    if e == [] then a
    else
      var last := e[|e| - 1];
      Put(PutAll(a, e[..|e| - 1]), last.0, last.1)
  }

  lemma {:induction false} PutAllKeys(a: PhpArray, e: PhpArray)
    ensures forall k :: k in Keys(PutAll(a, e)) <==> k in Keys(a) || k in Keys(e)
  {
    if e != [] {
      var last := e[|e| - 1];
      assert Keys(e) == Keys(e[..|e| - 1]) + [last.0];
      PutAllKeys(a, e[..|e| - 1]);
    }
  }

  /** After the loop, each key holds the value its last assignment gave it. */
  lemma {:induction false} PutAllLookup(a: PhpArray, e: PhpArray, k: Key)
    ensures Lookup(PutAll(a, e), k) == if k in Keys(e) then Latest(e, k) else Lookup(a, k)
  {
    if e != [] {
      var init, last := e[..|e| - 1], e[|e| - 1];
      assert Keys(e) == Keys(init) + [last.0];
      PutAllLookup(a, init, k);
      PutLookup(PutAll(a, init), last.0, last.1, k);
    }
  }

  /** `unset($a[k])` */
  function Unset(a: PhpArray, k: Key): (r: PhpArray)
    ensures forall i :: 0 <= i < |r| ==> r[i] in a && r[i].0 != k
    ensures k !in Keys(a) ==> r == a
  {
    if a == [] then []
    else
      assert Keys(a) == [a[0].0] + Keys(a[1..]);
      if a[0].0 == k then Unset(a[1..], k)
      else [a[0]] + Unset(a[1..], k)
  }

  lemma KeysAppend(a: PhpArray, b: PhpArray)
    ensures Keys(a + b) == Keys(a) + Keys(b)
  {
  }

  lemma UniqueAppend(a: PhpArray, b: PhpArray)
    requires UniqueKeys(a) && UniqueKeys(b)
    requires forall i :: 0 <= i < |b| ==> b[i].0 !in Keys(a)
    ensures UniqueKeys(a + b)
  {
    var r := a + b;
    forall i, j | 0 <= i < j < |r| ensures r[i].0 != r[j].0 {
      if j >= |a| {
        assert r[j] == b[j - |a|];
        if i < |a| {
          assert Keys(a)[i] == r[i].0;
        }
      }
    }
  }

  /** When no key of `b` is in `a` and `b` is a PHP array, `$a + $b` is concatenation. */
  lemma {:induction false} UnionFresh(a: PhpArray, b: PhpArray)
    requires UniqueKeys(b)
    requires forall i :: 0 <= i < |b| ==> b[i].0 !in Keys(a)
    ensures Union(a, b) == a + b
    decreases |b|
  {
    if b != [] {
      var a' := a + [b[0]];
      KeysAppend(a, [b[0]]);
      forall i | 0 <= i < |b[1..]|
        ensures b[1..][i].0 !in Keys(a')
      {
        assert b[1..][i] == b[i + 1];
      }
      UnionFresh(a', b[1..]);
      assert a' + b[1..] == a + b;
    }
  }

  /** `+` of two PHP arrays with no key in common: concatenation, still with unique keys. */
  lemma UnionDisjoint(a: PhpArray, b: PhpArray)
    requires UniqueKeys(a) && UniqueKeys(b)
    requires forall k :: k in Keys(b) ==> k !in Keys(a)
    ensures Union(a, b) == a + b
    ensures Keys(a + b) == Keys(a) + Keys(b)
    ensures UniqueKeys(a + b)
  {
    forall i | 0 <= i < |b| ensures b[i].0 !in Keys(a) {
      assert Keys(b)[i] == b[i].0;
    }
    UnionFresh(a, b);
    UniqueAppend(a, b);
    KeysAppend(a, b);
  }

  /** A foreach-assign of distinct new keys appends them in order. */
  lemma {:induction false} PutAllFresh(a: PhpArray, e: PhpArray)
    requires UniqueKeys(e)
    requires forall i :: 0 <= i < |e| ==> e[i].0 !in Keys(a)
    ensures PutAll(a, e) == a + e
  {
    if e != [] {
      var init, last := e[..|e| - 1], e[|e| - 1];
      assert e == init + [last];
      PutAllFresh(a, init);
      assert last.0 !in Keys(a + init) by {
        KeysAppend(a, init);
        assert last.0 !in Keys(a);
        forall j | 0 <= j < |init| ensures Keys(init)[j] != last.0 {
          assert init[j] == e[j];
        }
      }
      calc {
        PutAll(a, e);
        Put(PutAll(a, init), last.0, last.1);
        Put(a + init, last.0, last.1);
        a + init + [last];
      }
    }
  }

  /** `$a[k]` read through a chain of nested arrays; `null` where a level is missing. */
  function At(a: PhpArray, k: string): Value {
    match Lookup(a, StrKey(k))
    case Some(v) => v
    case None => Null
  }

  function Sub(v: Value, k: string): Value {
    if v.Arr? then At(v.entries, k) else Null
  }

  // ---------------------------------------------------------------------------
  // Truthiness and string casts

  /** PHP's boolean conversion: `if ($v)`, `(boolean) $v`, and the negation of `empty($v)`. */
  predicate Truthy(v: Value) {
    match v
    case Null => false
    case Bool(b) => b
    case Int(i) => i != 0
    case Str(s) => s != "" && s != "0"
    case Arr(e) => e != []
  }

  predicate IsDigit(c: char) { '0' <= c <= '9' }

  function Digit(d: nat): (c: char)
    requires d < 10
    ensures IsDigit(c)
  {
    "0123456789"[d]
  }

  /** Decimal representation of a natural number. */
  function NatToString(n: nat): (s: string)
    ensures s != []
    ensures forall i :: 0 <= i < |s| ==> IsDigit(s[i])
    decreases n
  {
    if n < 10 then [Digit(n)] else NatToString(n / 10) + [Digit(n % 10)]
  }

  function IntToString(i: int): string {
    if i < 0 then "-" + NatToString(-i) else NatToString(i)
  }

  /** The value of a string of decimal digits. */
  function ParseDigits(s: string): nat
    requires forall i :: 0 <= i < |s| ==> IsDigit(s[i])
  {
    if s == [] then 0
    else
      assert IsDigit(s[|s| - 1]);
      ParseDigits(s[..|s| - 1]) * 10 + (s[|s| - 1] as int - '0' as int)
  }

  lemma {:induction false} ParseNatToString(n: nat)
    ensures ParseDigits(NatToString(n)) == n
    decreases n
  {
    var s := NatToString(n);
    if n >= 10 {
      ParseNatToString(n / 10);
      assert s[..|s| - 1] == NatToString(n / 10);
    }
  }

  /** The string conversion PHP applies for `.` (arrays become "Array"). */
  function ToString(v: Value): string {
    match v
    case Null => ""
    case Bool(b) => if b then "1" else ""
    case Int(i) => IntToString(i)
    case Str(s) => s
    case Arr(_) => "Array"
  }

  // ---------------------------------------------------------------------------
  // Single-byte case mapping

  function LowerChar(c: char): char {
    if 'A' <= c <= 'Z' then (c as int + 32) as char else c
  }

  function UpperChar(c: char): char {
    if 'a' <= c <= 'z' then (c as int - 32) as char else c
  }

  function ToLower(s: string): (r: string)
    ensures |r| == |s| && forall i :: 0 <= i < |s| ==> r[i] == LowerChar(s[i])
  {
    seq(|s|, i requires 0 <= i < |s| => LowerChar(s[i]))
  }

  function ToUpper(s: string): (r: string)
    ensures |r| == |s| && forall i :: 0 <= i < |s| ==> r[i] == UpperChar(s[i])
  {
    seq(|s|, i requires 0 <= i < |s| => UpperChar(s[i]))
  }

  /** The word delimiters `ucwords` uses by default. */
  predicate IsWordDelimiter(c: char) {
    c == ' ' || c == '\t' || c == '\r' || c == '\n' || c == '\U{C}' || c == '\U{B}'
  }

  /** `ucwords($s)`: upper-cases the first character and every character that follows a delimiter. */
  function UcWords(s: string): (r: string)
    ensures |r| == |s|
    ensures |s| > 0 ==> r[0] == UpperChar(s[0])
    ensures forall i :: 0 < i < |s| ==> r[i] == if IsWordDelimiter(s[i - 1]) then UpperChar(s[i]) else s[i]
  {
    seq(|s|, i requires 0 <= i < |s| => if i == 0 || IsWordDelimiter(s[i - 1]) then UpperChar(s[i]) else s[i])
  }

  // ---------------------------------------------------------------------------
  // Path segments

  function IndexOf(s: string, c: char): (i: nat)
    requires c in s
    ensures i < |s| && s[i] == c && c !in s[..i]
  {
    if s[0] == c then 0 else 1 + IndexOf(s[1..], c)
  }

  /** `explode('/', $s)` */
  function Split(s: string): (r: seq<string>)
    ensures |r| > 0
    decreases |s|
  {
    if '/' in s then
      var i := IndexOf(s, '/');
      [s[..i]] + Split(s[i + 1..])
    else [s]
  }

  lemma SplitCons(a: string, b: string)
    requires '/' !in a
    ensures Split(a + "/" + b) == [a] + Split(b)
  {
    var s := a + "/" + b;
    assert s[|a|] == '/';
    var i := IndexOf(s, '/');
    assert i == |a| by {
      assert forall j :: 0 <= j < |a| ==> s[j] == a[j];
    }
    assert s[..i] == a;
    assert s[i + 1..] == b;
  }

  /** `implode('/', $segments)` */
  function Join(segments: seq<string>): string
    requires |segments| > 0
  {
    if |segments| == 1 then segments[0] else segments[0] + "/" + Join(segments[1..])
  }

  /** Splitting a joined path gives back its segments when none of them holds a '/'. */
  lemma {:induction false} SplitJoin(segments: seq<string>)
    requires |segments| > 0 && forall i :: 0 <= i < |segments| ==> '/' !in segments[i]
    ensures Split(Join(segments)) == segments
  {
    if |segments| == 1 {
      assert '/' !in segments[0];
    } else {
      SplitJoin(segments[1..]);
      SplitCons(segments[0], Join(segments[1..]));
    }
  }

  /** A decimal number holds no '/', so it is a whole path segment. */
  lemma NatToStringNoSlash(n: nat)
    ensures '/' !in NatToString(n)
  {
    var s := NatToString(n);
    forall i | 0 <= i < |s|
      ensures s[i] != '/'
    {
      assert IsDigit(s[i]);
    }
  }
}
