/**
 * The few operations on Python `str` values that the scripts rely on:
 * substring membership (`k in filename`), `str.endswith`, the ordering used
 * by `list.sort`, `str.join`, and the `str(i)` / `int(s)` pair used by the
 * selection menu. Strings are sequences of code points.
 */
module Strings {
  import opened Options

  /** `sub` occurs in `s` starting at position `i`. */
  predicate OccursAt(s: string, sub: string, i: nat)
  {
    i + |sub| <= |s| && s[i..i + |sub|] == sub
  }

  /**
   * Python's `sub in s`, computed by sliding a window over `s`; the contract
   * ties it to the positional definition.
   */
  function Contains(s: string, sub: string): (r: bool)
    ensures r <==> exists i: nat :: OccursAt(s, sub, i)
    decreases |s|
  {
    if |sub| > |s| then false
    else if s[..|sub|] == sub then
      assert OccursAt(s, sub, 0);
      true
    else
      ContainsShift(s, sub);
      Contains(s[1..], sub)
  }

  /** Occurrences in `s[1..]` are the occurrences in `s` past position 0. */
  lemma ContainsShift(s: string, sub: string)
    requires |s| > 0
    ensures forall i: nat :: OccursAt(s[1..], sub, i) <==> OccursAt(s, sub, i + 1)
    ensures (exists i: nat :: OccursAt(s, sub, i))
        <==> OccursAt(s, sub, 0) || exists i: nat :: OccursAt(s[1..], sub, i)
  {
    forall i: nat
      ensures OccursAt(s[1..], sub, i) <==> OccursAt(s, sub, i + 1)
    {
      if i + |sub| <= |s[1..]| {
        assert s[1..][i..i + |sub|] == s[i + 1..i + 1 + |sub|];
      }
    }
    if exists i: nat :: OccursAt(s, sub, i) {
      var i: nat :| OccursAt(s, sub, i);
      if i > 0 {
        assert OccursAt(s[1..], sub, i - 1);
      }
    }
  }

  /** A substring of a substring of `s` is a substring of `s`. */
  lemma {:induction false} ContainsTransitive(s: string, mid: string, sub: string)
    requires Contains(s, mid) && Contains(mid, sub)
    ensures Contains(s, sub)
  {
    var i: nat :| OccursAt(s, mid, i);
    var j: nat :| OccursAt(mid, sub, j);
    assert forall k :: 0 <= k < |sub| ==> sub[k] == mid[j + k] == s[i + j + k];
    assert s[i + j..i + j + |sub|] == sub;
    assert OccursAt(s, sub, i + j);
  }

  /** Python's `s.endswith(suffix)`. */
  predicate EndsWith(s: string, suffix: string)
  {
    |suffix| <= |s| && s[|s| - |suffix|..] == suffix
  }

  /** The names in `names` that end with `suffix`, in their original order. */
  function WithSuffix(names: seq<string>, suffix: string): (r: seq<string>)
    ensures forall f :: f in r ==> EndsWith(f, suffix)
    ensures forall f :: EndsWith(f, suffix) ==> multiset(r)[f] == multiset(names)[f]
    ensures forall f :: f in r <==> f in names && EndsWith(f, suffix)
  {
    if |names| == 0 then []
    else
      assert names == [names[0]] + names[1..];
      (if EndsWith(names[0], suffix) then [names[0]] else []) + WithSuffix(names[1..], suffix)
  }

  /** Python's `a <= b` on `str`: lexicographic comparison by code point. */
  predicate LessEq(a: string, b: string)
  {
    |a| == 0 || (|b| > 0 && (a[0] < b[0] || (a[0] == b[0] && LessEq(a[1..], b[1..]))))
  }

  lemma {:induction false} LessEqReflexive(a: string)
    ensures LessEq(a, a)
  {
    if |a| > 0 {
      LessEqReflexive(a[1..]);
    }
  }

  lemma {:induction false} LessEqTotal(a: string, b: string)
    ensures LessEq(a, b) || LessEq(b, a)
  {
    if |a| > 0 && |b| > 0 && a[0] == b[0] {
      LessEqTotal(a[1..], b[1..]);
    }
  }

  lemma {:induction false} LessEqTransitive(a: string, b: string, c: string)
    requires LessEq(a, b) && LessEq(b, c)
    ensures LessEq(a, c)
  {
    if |a| > 0 && a[0] == b[0] && b[0] == c[0] {
      LessEqTransitive(a[1..], b[1..], c[1..]);
    }
  }

  /** Python's `sep.join(parts)`. */
  function Join(sep: string, parts: seq<string>): string
  {
    if |parts| == 0 then ""
    else if |parts| == 1 then parts[0]
    else parts[0] + sep + Join(sep, parts[1..])
  }

  /** Joining one more part appends the separator and that part: `join` as a loop would build it. */
  lemma {:induction false} JoinSnoc(sep: string, parts: seq<string>, x: string)
    requires |parts| > 0
    ensures Join(sep, parts + [x]) == Join(sep, parts) + sep + x
  {
    if |parts| == 1 {
      assert parts + [x] == [parts[0], x];
    } else {
      assert (parts + [x])[1..] == parts[1..] + [x];
      JoinSnoc(sep, parts[1..], x);
    }
  }

  /** Each part occurs in the joined string. */
  lemma {:induction false} JoinContainsParts(sep: string, parts: seq<string>)
    ensures forall i :: 0 <= i < |parts| ==> Contains(Join(sep, parts), parts[i])
  {
    if |parts| == 1 {
      assert OccursAt(parts[0], parts[0], 0);
    } else if |parts| > 1 {
      var j := Join(sep, parts);
      var rest := Join(sep, parts[1..]);
      JoinContainsParts(sep, parts[1..]);
      assert OccursAt(j, parts[0], 0) by {
        assert j[..|parts[0]|] == parts[0];
      }
      forall i | 1 <= i < |parts|
        ensures Contains(j, parts[i])
      {
        assert parts[1..][i - 1] == parts[i];
        var k: nat :| OccursAt(rest, parts[i], k);
        var off := |parts[0]| + |sep|;
        assert j[off + k..off + k + |parts[i]|] == rest[k..k + |parts[i]|];
        assert OccursAt(j, parts[i], off + k);
      }
    }
  }

  predicate IsDigit(c: char)
  {
    '0' <= c <= '9'
  }

  function DigitChar(d: nat): (c: char)
    requires d < 10
    ensures IsDigit(c) && c as int - '0' as int == d
  {
    ('0' as int + d) as char
  }

  /** Python's `str(n)` for a non-negative integer: decimal digits, no leading zeros. */
  function NatToString(n: nat): (r: string)
    ensures |r| > 0
    ensures forall i :: 0 <= i < |r| ==> IsDigit(r[i])
    ensures |r| > 1 ==> r[0] != '0'
  {
    if n < 10 then [DigitChar(n)] else NatToString(n / 10) + [DigitChar(n % 10)]
  }

  /** The value of a non-empty string of decimal digits. */
  function DigitsValue(s: string): nat
    requires |s| > 0 && forall i :: 0 <= i < |s| ==> IsDigit(s[i])
  {
    assert IsDigit(s[|s| - 1]);
    var d := s[|s| - 1] as int - '0' as int;
    if |s| == 1 then d else 10 * DigitsValue(s[..|s| - 1]) + d
  }

  /**
   * Python's `int(s)` restricted to plain decimal strings: `None` stands
   * for the `ValueError` it raises on anything else.
   */
  function ParseNat(s: string): (r: Option<nat>)
    ensures r.Some? <==> |s| > 0 && forall i :: 0 <= i < |s| ==> IsDigit(s[i])
  {
    if |s| > 0 && forall i :: 0 <= i < |s| ==> IsDigit(s[i]) then Some(DigitsValue(s)) else None
  }

  /** `int(str(n)) == n`: the menu tag of index `n` reads back as `n`. */
  lemma {:induction false} ParseNatToString(n: nat)
    ensures ParseNat(NatToString(n)) == Some(n)
  {
    if n >= 10 {
      var s := NatToString(n);
      var p := NatToString(n / 10);
      assert s[..|s| - 1] == p;
      ParseNatToString(n / 10);
    }
  }
}
