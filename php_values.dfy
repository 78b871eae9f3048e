/**
 * The dynamically typed values the package passes around: configuration
 * trees read from the settings, route values, rendered data and the domain
 * objects themselves. A PHP array is an ordered dictionary whose keys are
 * integers or strings; a list is an array with the keys 0, 1, 2, ...
 */
module PhpValues {
  import opened OrderedDicts

  datatype Key = Idx(i: int) | Name(s: string)

  /**
   * `Obj` is a domain object: `ref` is its identity, `toStr` what its
   * `__toString` method returns, or None when its class has no such method.
   */
  datatype Value =
    | Null
    | Bool(b: bool)
    | Int(n: int)
    | Str(s: string)
    | Obj(ref: nat, toStr: Option<string>)
    | Arr(entries: Dict<Key, Value>)

  /** A PHP list of the given values, keyed 0, 1, 2, ... */
  function List(vs: seq<Value>): Value
  {
    Arr(seq(|vs|, i requires 0 <= i < |vs| => (Idx(i), vs[i])))
  }

  /** `$v[$k]` read the way `isset` sees it: Null when `$v` is not an array or lacks the key. */
  function At(v: Value, k: Key): (r: Value)
    ensures r != Null ==> v.Arr? && Get(v.entries, k) == Some(r)
    ensures v.Arr? && Get(v.entries, k).Some? ==> r == Get(v.entries, k).value
  {
    if v.Arr? then (match Get(v.entries, k) case Some(x) => x case None => Null) else Null
  }

  /** `$v['name']`, Null when absent. */
  function Field(v: Value, name: string): Value
  {
    At(v, Name(name))
  }

  /** `isset($v['name'])`: present and not NULL. */
  predicate IsSet(v: Value, name: string)
  {
    Field(v, name) != Null
  }

  /** The entries `foreach ($v as $k => $x)` visits: none when `$v` is not an array. */
  function EntriesOf(v: Value): Dict<Key, Value>
  {
    if v.Arr? then v.entries else []
  }

  function DigitChar(d: nat): char
    requires d < 10
  {
    "0123456789"[d]
  }

  function NatToDecimal(n: nat): string
  {
    if n < 10 then [DigitChar(n)] else NatToDecimal(n / 10) + [DigitChar(n % 10)]
  }

  function IntToDecimal(i: int): string
  {
    if i < 0 then "-" + NatToDecimal(-i) else NatToDecimal(i)
  }

  /** An array key as PHP hands it out when it is used as a string. */
  function KeyString(k: Key): string
  {
    match k
    case Idx(i) => IntToDecimal(i)
    case Name(s) => s
  }

  predicate IsDigit(c: char)
  {
    '0' <= c <= '9'
  }

  /** A decimal numeral without a superfluous leading zero: "0", "7", "42", not "", "07" or "4a". */
  predicate IsCanonicalNat(s: string)
  {
    |s| > 0 && (forall i :: 0 <= i < |s| ==> IsDigit(s[i])) && (s[0] == '0' ==> |s| == 1)
  }

  /** A string PHP turns into an integer array key: a canonical numeral, or "-" before a non-zero one. */
  predicate IsCanonicalInt(s: string)
  {
    IsCanonicalNat(s) || (|s| > 1 && s[0] == '-' && s[1] != '0' && IsCanonicalNat(s[1..]))
  }

  function DigitValue(c: char): nat
    requires IsDigit(c)
  {
    c as int - '0' as int
  }

  function ParseNat(s: string): nat
    requires forall i :: 0 <= i < |s| ==> IsDigit(s[i])
  {
    if s == [] then 0 else ParseNat(s[..|s| - 1]) * 10 + DigitValue(s[|s| - 1])
  }

  function ParseInt(s: string): int
    requires IsCanonicalInt(s)
  {
    if IsCanonicalNat(s) then ParseNat(s) else -(ParseNat(s[1..]) as int)
  }

  /**
   * The key `$a[$s]` addresses for a string offset s: PHP stores a string
   * that reads as a canonical decimal integer under that integer.
   */
  function StringKey(s: string): (k: Key)
    ensures KeyString(k) == s
  {
    if IsCanonicalInt(s) then
      NumeralRoundTrip(s);
      Idx(ParseInt(s))
    else Name(s)
  }

  /** A key as PHP keeps it: a string key never reads as a canonical integer. */
  predicate ValidKey(k: Key)
  {
    k.Name? ==> !IsCanonicalInt(k.s)
  }

  lemma DigitRoundTrip(c: char)
    requires IsDigit(c)
    ensures DigitValue(c) < 10 && DigitChar(DigitValue(c)) == c
  {
  }

  lemma DigitValueOf(d: nat)
    requires d < 10
    ensures IsDigit(DigitChar(d)) && DigitValue(DigitChar(d)) == d
  {
  }

  lemma {:induction false} ParseNatPositive(s: string)
    requires IsCanonicalNat(s) && s[0] != '0'
    ensures ParseNat(s) > 0
    decreases |s|
  {
    if |s| > 1 {
      ParseNatPositive(s[..|s| - 1]);
    }
  }

  lemma {:induction false} NatRoundTrip(s: string)
    requires IsCanonicalNat(s)
    ensures NatToDecimal(ParseNat(s)) == s
    decreases |s|
  {
    var init := s[..|s| - 1];
    var c := s[|s| - 1];
    DigitRoundTrip(c);
    if |s| == 1 {
      assert ParseNat(init) == 0;
    } else {
      assert init[0] == s[0];
      ParseNatPositive(init);
      NatRoundTrip(init);
      var n := ParseNat(s);
      assert n / 10 == ParseNat(init) && n % 10 == DigitValue(c);
      assert s == init + [c];
    }
  }

  /** Printing a parsed numeral gives it back. */
  lemma NumeralRoundTrip(s: string)
    requires IsCanonicalInt(s)
    ensures IntToDecimal(ParseInt(s)) == s
  {
    if IsCanonicalNat(s) {
      NatRoundTrip(s);
    } else {
      assert s[1..][0] == s[1];
      ParseNatPositive(s[1..]);
      NatRoundTrip(s[1..]);
      assert s == "-" + s[1..];
    }
  }

  lemma {:induction false} DecimalIsCanonical(n: nat)
    ensures IsCanonicalNat(NatToDecimal(n)) && ParseNat(NatToDecimal(n)) == n
    ensures n > 0 ==> NatToDecimal(n)[0] != '0'
  {
    if n < 10 {
      DigitValueOf(n);
      assert NatToDecimal(n)[..0] == [];
    } else {
      DecimalIsCanonical(n / 10);
      DigitValueOf(n % 10);
      var init := NatToDecimal(n / 10);
      var s := NatToDecimal(n);
      assert s == init + [DigitChar(n % 10)];
      assert s[..|s| - 1] == init;
      assert s[0] == init[0];
      forall i | 0 <= i < |s|
        ensures IsDigit(s[i])
      {
        if i < |init| {
          assert s[i] == init[i];
        }
      }
    }
  }

  /** Every key PHP can hold is the key of its own string form. */
  lemma KeyRoundTrip(k: Key)
    requires ValidKey(k)
    ensures StringKey(KeyString(k)) == k
  {
    if k.Idx? {
      if k.i >= 0 {
        DecimalIsCanonical(k.i);
      } else {
        DecimalIsCanonical(-k.i);
        var s := IntToDecimal(k.i);
        assert s[1..] == NatToDecimal(-k.i);
      }
    }
  }

  /** `$a["5"]` is `$a[5]`, while "05", "-0" and "5a" stay string keys. */
  lemma StringKeyExamples()
    ensures StringKey("5") == Idx(5)
    ensures StringKey("-12") == Idx(-12)
    ensures StringKey("05") == Name("05")
    ensures StringKey("-0") == Name("-0")
    ensures StringKey("5a") == Name("5a")
  {
    assert IsCanonicalNat("5") && ParseNat("5"[..0]) == 0;
    assert "-12"[1..] == "12" && "12"[..1] == "1" && "1"[..0] == "";
    assert IsCanonicalNat("12") && IsCanonicalInt("-12");
    assert !IsCanonicalNat("-12");
    assert !IsCanonicalNat("05") && "05"[0] != '-';
    assert "-0"[1] == '0' && !IsCanonicalNat("-0");
    assert !IsDigit("5a"[1]) && !IsCanonicalNat("5a");
  }

  /**
   * `(string)$v`. An object without `__toString` cannot be cast in PHP (an
   * Error is raised); no path of the model casts one, and it is given "" here.
   */
  function PhpString(v: Value): string
  {
    match v
    case Null => ""
    case Bool(b) => if b then "1" else ""
    case Int(n) => IntToDecimal(n)
    case Str(s) => s
    case Obj(_, toStr) => (match toStr case Some(s) => s case None => "")
    case Arr(_) => "Array"
  }

  /** `lcfirst`: lower-cases an ASCII upper-case first character. */
  function LcFirst(s: string): (r: string)
    ensures |r| == |s| && (s != [] ==> r[1..] == s[1..])
    ensures s != [] && 'A' <= s[0] <= 'Z' ==> r[0] == s[0] + ('a' - 'A')
    ensures s != [] && !('A' <= s[0] <= 'Z') ==> r == s
  {
    if s != [] && 'A' <= s[0] <= 'Z' then [s[0] + ('a' - 'A')] + s[1..] else s
  }

  /** `strpos`/`substr` prefix test. */
  predicate StartsWith(s: string, prefix: string)
  {
    |prefix| <= |s| && s[..|prefix|] == prefix
  }

  /**
   * `Arrays::arrayMergeRecursiveOverrule($base, $over)`: the second argument
   * wins; where both sides hold arrays at a key they are merged key by key.
   */
  function Merge(base: Value, over: Value): (r: Value)
    decreases over
    ensures !(base.Arr? && over.Arr?) ==> r == over
    ensures base.Arr? && over.Arr? ==> r.Arr? && Keys(base.entries) <= Keys(r.entries)
  {
    if base.Arr? && over.Arr? then Arr(MergeEntries(base.entries, over.entries)) else over
  }

  /** Folds the entries of the overriding array into `acc`, one key at a time. */
  function MergeEntries(acc: Dict<Key, Value>, over: Dict<Key, Value>): (r: Dict<Key, Value>)
    decreases over
    ensures Keys(acc) <= Keys(r)
    ensures forall k :: k in Keys(r) <==> k in Keys(acc) || k in Keys(over)
  {
    if over == [] then acc
    else
      var (k, v) := over[0];
      assert v < over[0];
      var merged := match Get(acc, k) case Some(b) => Merge(b, v) case None => v;
      MergeEntries(Put(acc, k, merged), over[1..])
  }

  /** What a merge stores at key k of the overriding array, whose value there is v. */
  function MergedAt(base: Dict<Key, Value>, k: Key, v: Value): Value
  {
    match Get(base, k)
    case Some(b) => Merge(b, v)
    case None => v
  }

  /** Keys the overriding array lacks keep their base value. */
  lemma {:induction false} MergeEntriesKeepsBase(acc: Dict<Key, Value>, over: Dict<Key, Value>, k: Key)
    requires k !in Keys(over)
    decreases over
    ensures Get(MergeEntries(acc, over), k) == Get(acc, k)
  {
    if over != [] {
      var merged := MergedAt(acc, over[0].0, over[0].1);
      MergeEntriesKeepsBase(Put(acc, over[0].0, merged), over[1..], k);
    }
  }

  /** Every key of the overriding array ends up holding its value merged over the base value. */
  lemma {:induction false} MergeEntriesOverrides(acc: Dict<Key, Value>, over: Dict<Key, Value>, k: Key)
    requires UniqueKeys(over) && k in Keys(over)
    decreases over
    ensures Get(MergeEntries(acc, over), k) == Some(MergedAt(acc, k, Get(over, k).value))
  {
    var k0 := over[0].0;
    var merged := MergedAt(acc, k0, over[0].1);
    if k0 == k {
      MergeEntriesKeepsBase(Put(acc, k0, merged), over[1..], k);
    } else {
      MergeEntriesOverrides(Put(acc, k0, merged), over[1..], k);
    }
  }

  /**
   * The merge of two arrays: keys only in the base keep the base value, every
   * key of the overriding array holds the overriding value, merged
   * recursively where both values are arrays.
   */
  lemma MergeArrays(base: Value, over: Value, k: Key)
    requires base.Arr? && over.Arr? && UniqueKeys(over.entries)
    ensures k !in Keys(over.entries) ==> Get(Merge(base, over).entries, k) == Get(base.entries, k)
    ensures k in Keys(over.entries) ==>
      Get(Merge(base, over).entries, k) == Some(MergedAt(base.entries, k, Get(over.entries, k).value))
  {
    if k in Keys(over.entries) {
      MergeEntriesOverrides(base.entries, over.entries, k);
    } else {
      MergeEntriesKeepsBase(base.entries, over.entries, k);
    }
  }
}
