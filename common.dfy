/** Shared vocabulary of the model: optional values and results, identifiers,
    money in cents, and the few string operations of java.lang.String the
    application relies on (ASCII only). */
module Common {

  /** A value that Java represents as a nullable reference. */
  datatype Option<+T> = None | Some(value: T)

  /** What a service returns: a value, or the exception it throws. */
  datatype Result<+R> = Success(value: R) | Failure(error: Failure)

  /** The exceptions the modelled code raises or lets escape. */
  datatype Failure =
    | IllegalArgument(message: string)    // IllegalArgumentException thrown on purpose
    | NegativeLimit(maxSize: int)          // Stream.limit rejecting a negative size
    | NullPointer                          // a method called on a null reference
    | Runtime(message: string, cause: Failure)  // RuntimeException wrapping a cause

  /** An entity identifier: the canonical 36-character text of a java.util.UUID. */
  type Id = s: string | |s| == 36 witness "00000000-0000-0000-0000-000000000000"

  /** An exact monetary amount, in cents. */
  type Cents = int

  /** A point in time, in seconds. */
  type Timestamp = int

  /** A calendar date, as a day number. */
  type Day = int

  function Min(a: int, b: int): int { if a <= b then a else b }

  /** The first `n` elements of `s`, or all of it (Stream.limit). */
  function Take<T>(s: seq<T>, n: nat): (r: seq<T>)
    ensures |r| == Min(n, |s|) && r == s[..|r|]
  {
    if n <= |s| then s[..n] else s
  }

  /** Character.toLowerCase restricted to ASCII letters. */
  function LowerChar(c: char): (r: char)
    ensures !('A' <= r <= 'Z')
    ensures !('A' <= c <= 'Z') ==> r == c
  {
    if 'A' <= c <= 'Z' then (c as int + 32) as char else c
  }

  /** String.toLowerCase, ASCII letters only. */
  function Lower(s: string): (r: string)
    ensures |r| == |s|
    ensures forall i | 0 <= i < |s| :: r[i] == LowerChar(s[i])
  {
    seq(|s|, i requires 0 <= i < |s| => LowerChar(s[i]))
  }

  /** Lower-casing twice is lower-casing once. */
  lemma LowerIdempotent(s: string)
    ensures Lower(Lower(s)) == Lower(s)
  {
    assert forall i | 0 <= i < |s| :: Lower(Lower(s))[i] == Lower(s)[i];
  }

  /** Lower-casing works character by character, so it distributes over concatenation. */
  lemma LowerAppend(a: string, b: string)
    ensures Lower(a + b) == Lower(a) + Lower(b)
  {
    assert forall i | 0 <= i < |a + b| :: Lower(a + b)[i] == (Lower(a) + Lower(b))[i];
  }

  /** `a.equalsIgnoreCase(b)`; a null argument never matches. */
  predicate EqualsIgnoreCase(a: string, b: Option<string>)
  {
    b.Some? && Lower(a) == Lower(b.value)
  }

  /** String.contains: `sub` occurs in `s` at some position. */
  predicate Contains(s: string, sub: string)
    decreases |s|
  {
    sub <= s || (|s| > 0 && Contains(s[1..], sub))
  }

  /** String.contains, read as "some window of s equals sub". */
  lemma {:induction false} ContainsAt(s: string, sub: string, i: nat)
    requires i + |sub| <= |s| && s[i..i + |sub|] == sub
    ensures Contains(s, sub)
    decreases i
  {
    if i == 0 {
      assert sub <= s;
    } else {
      assert s[1..][i - 1..i - 1 + |sub|] == sub;
      ContainsAt(s[1..], sub, i - 1);
    }
  }

  /** A string containing `a + b` contains `a`. */
  lemma {:induction false} ContainsPrefix(s: string, a: string, b: string)
    requires Contains(s, a + b)
    ensures Contains(s, a)
    decreases |s|
  {
    if a + b <= s {
      assert a <= s by { assert forall i | 0 <= i < |a| :: s[i] == (a + b)[i]; }
    } else {
      ContainsPrefix(s[1..], a, b);
    }
  }

  /** The characters String.trim removes: code points up to U+0020. */
  predicate IsTrimmed(c: char) { c <= ' ' }

  /** A text made only of characters String.trim removes. */
  predicate Blank(t: string)
  {
    forall i | 0 <= i < |t| :: IsTrimmed(t[i])
  }

  /** `r` is `s` with its leading and trailing blanks removed: `s` is blanks,
      then `r`, then blanks, and `r` neither starts nor ends with a blank. */
  ghost predicate TrimOf(s: string, r: string)
  {
    && (exists a, b | Blank(a) && Blank(b) :: s == a + r + b)
    && (r == [] || (!IsTrimmed(r[0]) && !IsTrimmed(r[|r| - 1])))
  }

  function TrimStart(s: string): (r: string)
    ensures |r| <= |s| && r == s[|s| - |r|..]
    ensures r == [] || !IsTrimmed(r[0])
  {
    if s != [] && IsTrimmed(s[0]) then TrimStart(s[1..]) else s
  }

  /** TrimStart removes only blanks. */
  lemma {:induction false} TrimStartRemovesBlanks(s: string)
    ensures forall i | 0 <= i < |s| - |TrimStart(s)| :: IsTrimmed(s[i])
  {
    if s != [] && IsTrimmed(s[0]) {
      var rest := s[1..];
      TrimStartRemovesBlanks(rest);
      forall i | 1 <= i < |s| - |TrimStart(s)| ensures IsTrimmed(s[i]) {
        assert s[i] == rest[i - 1];
      }
    }
  }

  function TrimEnd(s: string): (r: string)
    ensures |r| <= |s| && r == s[..|r|]
    ensures r == [] || !IsTrimmed(r[|r| - 1])
  {
    if s != [] && IsTrimmed(s[|s| - 1]) then TrimEnd(s[..|s| - 1]) else s
  }

  /** TrimEnd removes only blanks. */
  lemma {:induction false} TrimEndRemovesBlanks(s: string)
    ensures forall i | |TrimEnd(s)| <= i < |s| :: IsTrimmed(s[i])
  {
    if s != [] && IsTrimmed(s[|s| - 1]) {
      var rest := s[..|s| - 1];
      TrimEndRemovesBlanks(rest);
      forall i | |TrimEnd(s)| <= i < |s| - 1 ensures IsTrimmed(s[i]) {
        assert s[i] == rest[i];
      }
    }
  }

  /** String.trim: strips leading and trailing characters up to U+0020. */
  function Trim(s: string): (r: string)
    ensures |r| <= |s|
    ensures r == [] || (!IsTrimmed(r[0]) && !IsTrimmed(r[|r| - 1]))
  {
    TrimEnd(TrimStart(s))
  }

  /** Blank leading characters make a blank prefix. */
  lemma BlankTake(s: string, k: nat)
    requires k <= |s|
    requires forall i | 0 <= i < k :: IsTrimmed(s[i])
    ensures Blank(s[..k]) && s == s[..k] + s[k..]
  {
  }

  /** Blank trailing characters make a blank suffix. */
  lemma BlankDrop(s: string, k: nat)
    requires k <= |s|
    requires forall i | k <= i < |s| :: IsTrimmed(s[i])
    ensures Blank(s[k..]) && s == s[..k] + s[k..]
  {
    forall i | 0 <= i < |s| - k ensures IsTrimmed(s[k..][i]) {
      assert s[k..][i] == s[k + i];
    }
  }

  /** Trim removes blank ends and nothing else. */
  lemma TrimIsTrimOf(s: string)
    ensures TrimOf(s, Trim(s))
  {
    var t := TrimStart(s);
    var r := TrimEnd(t);
    TrimStartRemovesBlanks(s);
    TrimEndRemovesBlanks(t);
    BlankTake(s, |s| - |t|);
    BlankDrop(t, |r|);
    TrimmedForm(s, s[..|s| - |t|], t, r, t[|r|..]);
  }

  /** Blanks, then `t`, where `t` is `r` then blanks, is blanks, `r`, blanks. */
  lemma TrimmedForm(s: string, a: string, t: string, r: string, b: string)
    requires Blank(a) && Blank(b) && s == a + t && t == r + b
    requires r == [] || (!IsTrimmed(r[0]) && !IsTrimmed(r[|r| - 1]))
    ensures TrimOf(s, r)
  {
    assert s == a + r + b;
  }

  /** In blanks, then `r`, then blanks, the blanks are the blank ends of the
      whole, and a non-blank end of `r` is where they stop. */
  lemma TrimmedEnds(s: string, a: string, r: string, b: string)
    requires Blank(a) && Blank(b) && s == a + r + b
    ensures forall i | 0 <= i < |a| :: IsTrimmed(s[i])
    ensures forall i | |s| - |b| <= i < |s| :: IsTrimmed(s[i])
    ensures r != [] && !IsTrimmed(r[0]) ==> !IsTrimmed(s[|a|])
    ensures r != [] && !IsTrimmed(r[|r| - 1]) ==> !IsTrimmed(s[|s| - 1 - |b|])
    ensures r == [] ==> Blank(s)
  {
    assert forall i | 0 <= i < |a| :: s[i] == a[i];
    assert forall i | |s| - |b| <= i < |s| :: s[i] == b[i - |a| - |r|];
    if r == [] {
      assert forall i | |a| <= i < |s| :: s[i] == b[i - |a|];
    } else {
      assert s[|a|] == r[0];
      assert s[|s| - 1 - |b|] == r[|r| - 1];
    }
  }

  /** A text has only one trimmed form. */
  lemma TrimOfUnique(s: string, r1: string, r2: string)
    requires TrimOf(s, r1) && TrimOf(s, r2)
    ensures r1 == r2
  {
    var a1, b1 :| Blank(a1) && Blank(b1) && s == a1 + r1 + b1;
    var a2, b2 :| Blank(a2) && Blank(b2) && s == a2 + r2 + b2;
    TrimmedEnds(s, a1, r1, b1);
    TrimmedEnds(s, a2, r2, b2);
    if r1 != [] && r2 != [] {
      assert |a1| == |a2| && |b1| == |b2|;
      assert r1 == s[|a1|..|s| - |b1|];
      assert r2 == s[|a2|..|s| - |b2|];
    }
  }

  /** Trim computes the one trimmed form of a text. */
  lemma TrimIsTheTrimOf(s: string)
    ensures forall t | TrimOf(s, t) :: Trim(s) == t
  {
    TrimIsTrimOf(s);
    forall t | TrimOf(s, t) ensures Trim(s) == t {
      TrimOfUnique(s, Trim(s), t);
    }
  }

  /** Trimming leaves nothing exactly when the text is all blanks. */
  lemma TrimEmptyIffBlank(s: string)
    ensures Trim(s) == [] <==> Blank(s)
  {
    var t := Trim(s);
    TrimIsTrimOf(s);
    var a, b :| Blank(a) && Blank(b) && s == a + t + b;
    TrimmedEnds(s, a, t, b);
  }

  /** Map.merge(k, v, BigDecimal::add) on a map of amounts. */
  function Merge<K>(m: map<K, int>, k: K, v: int): (r: map<K, int>)
    ensures r.Keys == m.Keys + {k}
    ensures r[k] == (if k in m then m[k] else 0) + v
    ensures forall j | j in m && j != k :: r[j] == m[j]
  {
    m[k := (if k in m then m[k] else 0) + v]
  }

  /** The sum of the values of a map, in no particular order. */
  ghost function MapSum<K>(m: map<K, int>): int
    decreases |m|
  {
    if |m| == 0 then 0
    else
      var k :| k in m;
      assert (m - {k}).Keys == m.Keys - {k};
      m[k] + MapSum(m - {k})
  }

  /** Any key can be taken out first: the sum does not depend on the order. */
  lemma {:induction false} MapSumRemove<K>(m: map<K, int>, k: K)
    requires k in m
    ensures MapSum(m) == m[k] + MapSum(m - {k})
    decreases |m|
  {
    assert |m| != 0 by { assert k in m.Keys; }
    var j := MapSumPick(m);
    if j != k {
      var mj, mk := m - {j}, m - {k};
      assert mj.Keys == m.Keys - {j} && mk.Keys == m.Keys - {k};
      assert k in mj && j in mk;
      MapSumRemove(mj, k);
      MapSumRemove(mk, j);
      assert mj - {k} == mk - {j};
    }
  }

  /** The key MapSum takes out first. */
  lemma MapSumPick<K>(m: map<K, int>) returns (j: K)
    requires |m| != 0
    ensures j in m && MapSum(m) == m[j] + MapSum(m - {j})
    ensures |m - {j}| == |m| - 1
  {
    j :| j in m && MapSum(m) == m[j] + MapSum(m - {j});
    assert (m - {j}).Keys == m.Keys - {j};
  }

  /** Merging an amount into a map adds exactly that amount to its sum. */
  lemma MapSumMerge<K>(m: map<K, int>, k: K, v: int)
    ensures MapSum(Merge(m, k, v)) == MapSum(m) + v
  {
    var r := Merge(m, k, v);
    MapSumRemove(r, k);
    if k in m {
      MapSumRemove(m, k);
      assert r - {k} == m - {k};
    } else {
      assert r - {k} == m;
    }
  }
}
