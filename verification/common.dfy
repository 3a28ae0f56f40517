/** Shared vocabulary: optional values, results, JSON values and request
    bodies as the Express JSON parser delivers them, and the few string
    operations of JavaScript the application relies on. */
module Common {

  type Id = nat

  datatype Option<T> = None | Some(value: T)

  datatype Result<T, E> = Ok(value: T) | Err(error: E)

  /** A JSON value. Numbers are integers (fractional numbers are not
      modelled). An object lists its properties in insertion order. */
  datatype Value =
    | Str(s: string)
    | Num(n: int)
    | Bool(b: bool)
    | Null
    | Arr(items: seq<Value>)
    | Obj(fields: seq<(string, Value)>)

  /** JavaScript truthiness of a property read; an absent key reads as `undefined`. */
  predicate Truthy(v: Option<Value>)
  {
    match v
    case None => false
    case Some(Str(s)) => s != ""
    case Some(Num(n)) => n != 0
    case Some(Bool(b)) => b
    case Some(Null) => false
    case Some(Arr(_)) => true
    case Some(Obj(_)) => true
  }

  /** Truthiness of an optional string (`null`/`undefined` or a string). */
  predicate TruthyText(s: Option<string>)
  {
    s.Some? && s.value != ""
  }

  predicate DistinctKeys(fields: seq<(string, Value)>)
  {
    forall i, j :: 0 <= i < j < |fields| ==> fields[i].0 != fields[j].0
  }

  /** A parsed JSON object: its properties in insertion order, no key twice. */
  type Body = fields: seq<(string, Value)> | DistinctKeys(fields) witness []

  predicate HasKey(body: seq<(string, Value)>, key: string)
  {
    exists i :: 0 <= i < |body| && body[i].0 == key
  }

  /** Reads property `key` of an object (`None` when it is not there). */
  function Get(body: seq<(string, Value)>, key: string): (r: Option<Value>)
    ensures r.Some? <==> HasKey(body, key)
    ensures r.Some? ==> exists i :: 0 <= i < |body| && body[i] == (key, r.value)
    ensures DistinctKeys(body) ==> forall i :: 0 <= i < |body| && body[i].0 == key ==> r == Some(body[i].1)
  {
    if body == [] then None
    else if body[0].0 == key then Some(body[0].1)
    else
      var r := Get(body[1..], key);
      assert forall i :: 0 < i < |body| ==> body[i] == body[1..][i - 1];
      assert HasKey(body[1..], key) ==> HasKey(body, key);
      r
  }

  // ------------------------------------------------------------ key order

  predicate IsDigit(c: char) { '0' <= c <= '9' }

  predicate AllDigits(s: string) { forall i :: 0 <= i < |s| ==> IsDigit(s[i]) }

  function DigitValue(c: char): nat { if IsDigit(c) then c as int - '0' as int else 0 }

  /** The number a string of decimal digits denotes (0 for ""). */
  function DigitsValue(s: string): nat
  {
    if s == [] then 0 else DigitsValue(s[..|s| - 1]) * 10 + DigitValue(s[|s| - 1])
  }

  /** `2^32 - 1`: array indices lie below it. */
  const ArrayIndexLimit: nat := 4294967295

  /** A property key JavaScript treats as an array index: the canonical
      decimal form ("0", or digits without a leading zero) of an integer
      below `2^32 - 1`. */
  predicate IsArrayIndex(k: string)
  {
    k != "" && AllDigits(k) && (k[0] == '0' ==> k == "0") && DigitsValue(k) < ArrayIndexLimit
  }

  /** Array-index keys in ascending numeric order. */
  predicate IndexAscending(ks: seq<string>)
  {
    (forall i :: 0 <= i < |ks| ==> IsArrayIndex(ks[i])) &&
    (forall i, j :: 0 <= i < j < |ks| ==> DigitsValue(ks[i]) <= DigitsValue(ks[j]))
  }

  function InsertIndexKey(k: string, ks: seq<string>): (r: seq<string>)
    ensures |r| == |ks| + 1
    ensures forall x :: x in r <==> x == k || x in ks
    ensures IsArrayIndex(k) && IndexAscending(ks) ==> IndexAscending(r)
  {
    if ks == [] || DigitsValue(k) <= DigitsValue(ks[0]) then
      assert forall x :: x in [k] + ks <==> x == k || x in ks;
      [k] + ks
    else
      var rest := InsertIndexKey(k, ks[1..]);
      assert forall x :: x in ks <==> x == ks[0] || x in ks[1..] by {
        assert ks == [ks[0]] + ks[1..];
      }
      assert IsArrayIndex(k) && IndexAscending(ks) ==> IndexAscending([ks[0]] + rest) by {
        if IsArrayIndex(k) && IndexAscending(ks) {
          assert IndexAscending(ks[1..]) by {
            forall i, j | 0 <= i < j < |ks[1..]|
              ensures DigitsValue(ks[1..][i]) <= DigitsValue(ks[1..][j])
            {
              assert ks[1..][i] == ks[i + 1] && ks[1..][j] == ks[j + 1];
            }
          }
          HeadBelowAll(ks[0], rest, k, ks);
        }
      }
      [ks[0]] + rest
  }

  lemma HeadBelowAll(h: string, rest: seq<string>, k: string, ks: seq<string>)
    requires ks != [] && h == ks[0] && IsArrayIndex(h) && IndexAscending(ks)
    requires IsArrayIndex(k) && DigitsValue(h) <= DigitsValue(k)
    requires IndexAscending(rest) && forall x :: x in rest ==> x == k || x in ks[1..]
    ensures IndexAscending([h] + rest)
  {
    var r := [h] + rest;
    forall j | 0 < j < |r|
      ensures DigitsValue(h) <= DigitsValue(r[j])
    {
      assert r[j] == rest[j - 1] && rest[j - 1] in rest;
      if r[j] != k {
        var n :| 0 <= n < |ks[1..]| && ks[1..][n] == r[j];
        assert ks[n + 1] == r[j];
      }
    }
    forall i, j | 0 <= i < j < |r|
      ensures DigitsValue(r[i]) <= DigitsValue(r[j])
    {
      if i > 0 {
        assert r[i] == rest[i - 1] && r[j] == rest[j - 1];
      }
    }
  }

  /** Array-index keys sorted into ascending order. */
  function SortIndexKeys(ks: seq<string>): (r: seq<string>)
    ensures forall x :: x in r <==> x in ks
    ensures (forall x :: x in ks ==> IsArrayIndex(x)) ==> IndexAscending(r)
  {
    if ks == [] then []
    else
      assert ks == [ks[0]] + ks[1..];
      InsertIndexKey(ks[0], SortIndexKeys(ks[1..]))
  }

  /** The keys of `body` outside `known` that are array indices (`indices`)
      or that are not, in insertion order. */
  function KeysOutside(body: seq<(string, Value)>, known: set<string>, indices: bool): (r: seq<string>)
    ensures forall k :: k in r <==> HasKey(body, k) && k !in known && IsArrayIndex(k) == indices
  {
    if body == [] then []
    else
      var rest := KeysOutside(body[1..], known, indices);
      assert forall k :: HasKey(body, k) <==> k == body[0].0 || HasKey(body[1..], k) by {
        forall k | HasKey(body, k) && k != body[0].0 ensures HasKey(body[1..], k) {
          var i :| 0 <= i < |body| && body[i].0 == k;
          assert body[1..][i - 1].0 == k;
        }
        forall k | HasKey(body[1..], k) ensures HasKey(body, k) {
          var i :| 0 <= i < |body[1..]| && body[1..][i].0 == k;
          assert body[i + 1].0 == k;
        }
      }
      var k := body[0].0;
      if k !in known && IsArrayIndex(k) == indices then [k] + rest else rest
  }

  /** The keys of an object that are not in `known`, in the order
      `Object.keys` lists them: the array indices first, in ascending
      numeric order, then the other keys in insertion order. */
  function UnknownKeys(body: seq<(string, Value)>, known: set<string>): (r: seq<string>)
    ensures forall k :: k in r <==> HasKey(body, k) && k !in known
  {
    SortIndexKeys(KeysOutside(body, known, true)) + KeysOutside(body, known, false)
  }

  /** `k` is the first key of `body` outside `known` in the order of
      `Object.keys`: the least array index outside `known` if there is one,
      otherwise the first such key in insertion order. */
  ghost predicate FirstUnknown(body: seq<(string, Value)>, known: set<string>, k: string)
  {
    HasKey(body, k) && k !in known &&
    if exists x :: HasKey(body, x) && x !in known && IsArrayIndex(x) then
      IsArrayIndex(k) &&
      forall x :: HasKey(body, x) && x !in known && IsArrayIndex(x) ==> DigitsValue(k) <= DigitsValue(x)
    else
      exists i :: 0 <= i < |body| && body[i].0 == k && forall j :: 0 <= j < i ==> body[j].0 in known
  }

  /** The unknown keys are listed in the order of `Object.keys`: the first
      of them comes first. */
  lemma UnknownKeysStartWithFirst(body: seq<(string, Value)>, known: set<string>)
    requires UnknownKeys(body, known) != []
    ensures FirstUnknown(body, known, UnknownKeys(body, known)[0])
  {
    var indices := KeysOutside(body, known, true);
    var sorted := SortIndexKeys(indices);
    var k := UnknownKeys(body, known)[0];
    if sorted != [] {
      assert k == sorted[0] && k in sorted;
      forall x | HasKey(body, x) && x !in known && IsArrayIndex(x)
        ensures DigitsValue(k) <= DigitsValue(x)
      {
        assert x in sorted;
        var n :| 0 <= n < |sorted| && sorted[n] == x;
      }
    } else {
      var named := KeysOutside(body, known, false);
      assert k == named[0];
      KeysOutsideStartWithFirst(body, known, false);
      assert forall x :: !(HasKey(body, x) && x !in known && IsArrayIndex(x));
    }
  }

  /** The first key `KeysOutside` lists is the first key of the body it keeps. */
  lemma {:induction false} KeysOutsideStartWithFirst(body: seq<(string, Value)>, known: set<string>, indices: bool)
    requires KeysOutside(body, known, indices) != []
    ensures var k := KeysOutside(body, known, indices)[0];
      exists i :: 0 <= i < |body| && body[i].0 == k &&
        forall j :: 0 <= j < i ==> !(body[j].0 !in known && IsArrayIndex(body[j].0) == indices)
  {
    var k := KeysOutside(body, known, indices)[0];
    var h := body[0].0;
    if !(h !in known && IsArrayIndex(h) == indices) {
      KeysOutsideStartWithFirst(body[1..], known, indices);
      var i :| 0 <= i < |body[1..]| && body[1..][i].0 == k &&
                forall j :: 0 <= j < i ==> !(body[1..][j].0 !in known && IsArrayIndex(body[1..][j].0) == indices);
      assert body[i + 1].0 == k;
      forall j | 0 <= j < i + 1
        ensures !(body[j].0 !in known && IsArrayIndex(body[j].0) == indices)
      {
        if j > 0 {
          assert body[j] == body[1..][j - 1];
        }
      }
    } else {
      assert body[0].0 == k;
    }
  }

  // ---------------------------------------------------------------- strings

  /** The `length` JavaScript reports for a string: its UTF-16 code units,
      two for a character outside the Basic Multilingual Plane. */
  function Utf16Length(s: string): (n: nat)
    ensures |s| <= n <= 2 * |s|
  {
    if s == [] then 0
    else (if s[0] as int > 0xFFFF then 2 else 1) + Utf16Length(s[1..])
  }

  /** A string within the Basic Multilingual Plane is as long in UTF-16 as
      it has characters. */
  lemma {:induction false} Utf16LengthOfBmp(s: string)
    requires forall i :: 0 <= i < |s| ==> s[i] as int <= 0xFFFF
    ensures Utf16Length(s) == |s|
  {
    if s != [] {
      assert forall i :: 0 <= i < |s[1..]| ==> s[1..][i] == s[i + 1];
      Utf16LengthOfBmp(s[1..]);
    }
  }

  predicate OccursAt(s: string, p: string, i: int)
  {
    0 <= i && i + |p| <= |s| && s[i..i + |p|] == p
  }

  function IndexFrom(s: string, p: string, start: nat): (r: Option<nat>)
    ensures r.Some? ==> start <= r.value && OccursAt(s, p, r.value)
    ensures r.Some? ==> forall k :: start <= k < r.value ==> !OccursAt(s, p, k)
    ensures r.None? ==> forall k :: start <= k ==> !OccursAt(s, p, k)
    decreases |s| - start
  {
    if start + |p| > |s| then None
    else if s[start..start + |p|] == p then Some(start)
    else IndexFrom(s, p, start + 1)
  }

  /** `s.indexOf(p)`: the first position at which `p` occurs in `s`. */
  function IndexOf(s: string, p: string): (r: Option<nat>)
    ensures r.Some? ==> OccursAt(s, p, r.value) && forall k :: 0 <= k < r.value ==> !OccursAt(s, p, k)
    ensures r.None? ==> forall k :: !OccursAt(s, p, k)
  {
    IndexFrom(s, p, 0)
  }

  /** `s.includes(p)`. */
  predicate Contains(s: string, p: string)
  {
    IndexOf(s, p).Some?
  }

  lemma ContainsWitness(s: string, p: string, i: nat)
    requires OccursAt(s, p, i)
    ensures Contains(s, p)
  {
  }

  /** `s.replace(p, rep)` with a string pattern: only the first occurrence is replaced. */
  function ReplaceFirst(s: string, p: string, rep: string): (r: string)
    ensures IndexOf(s, p).None? ==> r == s
    ensures IndexOf(s, p).Some? ==>
      var i := IndexOf(s, p).value; r == s[..i] + rep + s[i + |p|..]
  {
    match IndexOf(s, p)
    case None => s
    case Some(i) => s[..i] + rep + s[i + |p|..]
  }

  /** `parts.join(sep)`. */
  function Join(parts: seq<string>, sep: string): string
  {
    if parts == [] then ""
    else if |parts| == 1 then parts[0]
    else parts[0] + sep + Join(parts[1..], sep)
  }

  /** Two parts are joined with one separator between them. */
  lemma JoinTwo(a: string, b: string, sep: string)
    ensures Join([a, b], sep) == a + sep + b
  {
    assert [a, b][1..] == [b];
  }

  function DigitChar(d: nat): char
    requires d < 10
  {
    "0123456789"[d]
  }

  /** Decimal rendering of a natural number, as template literals print it. */
  function NatToString(n: nat): string
  {
    if n < 10 then [DigitChar(n)] else NatToString(n / 10) + [DigitChar(n % 10)]
  }

  // ----------------------------------------------------------------- filters

  /** `s.filter(keep)`. */
  function Filter<T(!new)>(s: seq<T>, keep: T -> bool): (r: seq<T>)
    ensures |r| <= |s|
    ensures forall x :: x in r <==> x in s && keep(x)
    ensures forall x :: multiset(r)[x] == if keep(x) then multiset(s)[x] else 0
    decreases s
  {
    if s == [] then []
    else
      var rest := Filter(s[1..], keep);
      assert s == [s[0]] + s[1..];
      if keep(s[0]) then [s[0]] + rest else rest
  }

  /** `r` is obtained from `s` by deleting elements, keeping the order of the rest. */
  predicate IsSubsequence<T(==)>(r: seq<T>, s: seq<T>)
    decreases s
  {
    if r == [] then true
    else if s == [] then false
    else if r[0] == s[0] then IsSubsequence(r[1..], s[1..])
    else IsSubsequence(r, s[1..])
  }

  lemma {:induction false} FilterKeepsOrder<T(!new)>(s: seq<T>, keep: T -> bool)
    ensures IsSubsequence(Filter(s, keep), s)
    decreases s
  {
    if s != [] {
      FilterKeepsOrder(s[1..], keep);
      var rest := Filter(s[1..], keep);
      if !keep(s[0]) {
        SubsequenceOfTail(rest, s);
      }
    }
  }

  lemma {:induction false} SubsequenceOfTail<T>(r: seq<T>, s: seq<T>)
    requires s != [] && IsSubsequence(r, s[1..])
    ensures IsSubsequence(r, s)
    decreases |s|, 0
  {
    if r != [] && r[0] == s[0] {
      SubsequenceDropHead(r, s[1..]);
    }
  }

  lemma {:induction false} SubsequenceDropHead<T>(r: seq<T>, s: seq<T>)
    requires r != [] && IsSubsequence(r, s)
    ensures IsSubsequence(r[1..], s)
    decreases |s|, 1
  {
    if r[0] != s[0] {
      SubsequenceDropHead(r, s[1..]);
    }
    if r[1..] != [] {
      SubsequenceOfTail(r[1..], s);
    }
  }

  /** Filtering with a predicate that keeps everything changes nothing. */
  lemma {:induction false} FilterKeepAll<T(!new)>(s: seq<T>, keep: T -> bool)
    requires forall x :: x in s ==> keep(x)
    ensures Filter(s, keep) == s
    decreases s
  {
    if s != [] {
      FilterKeepAll(s[1..], keep);
    }
  }
}
