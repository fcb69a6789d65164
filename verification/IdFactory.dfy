/** Increasing ids: seven characters of time and some of salt (pyon/datastore/id_factory.py). */
module IdFactory {
  import opened Arithmetic

  const Numerals: string := "0123456789"
  const Capitals: string := "ABCDEFGHIJKLMNOPQRSTUVWXYZ"
  const Letters: string := "abcdefghijklmnopqrstuvwxyz"
  const Charset: string := "-" + Numerals + Capitals + "_" + Letters

  /** How many characters hold the time: 42 bits, six to a character. */
  const TimeChars: nat := 7

  function Pow64(n: nat): (p: nat)
    ensures p > 0
  {
    if n == 0 then 1 else 64 * Pow64(n - 1)
  }

  lemma TimeBits()
    ensures Pow64(TimeChars) == 0x400_0000_0000
  {
  }

  // ------------------------------------------------- strings in order

  /** The order of strings, character by character. */
  predicate Less(a: string, b: string) {
    b != [] && (a == [] || a[0] < b[0] || (a[0] == b[0] && Less(a[1..], b[1..])))
  }

  lemma LessCons(c: char, a: string, d: char, b: string)
    ensures Less([c] + a, [d] + b) <==> c < d || (c == d && Less(a, b))
  {
    assert ([c] + a)[1..] == a && ([d] + b)[1..] == b;
  }

  lemma {:induction false} LessIrreflexive(a: string)
    ensures !Less(a, a)
    decreases |a|
  {
    if a != [] { LessIrreflexive(a[1..]); }
  }

  lemma NumeralIs(k: nat)
    requires k < 10
    ensures Numerals[k] == '0' + k as char
  {
  }

  lemma CapitalIs(k: nat)
    requires k < 26
    ensures Capitals[k] == 'A' + k as char
  {
  }

  lemma LetterIs(k: nat)
    requires k < 26
    ensures Letters[k] == 'a' + k as char
  {
  }

  lemma CharsetIs(k: nat)
    requires k < 64
    ensures Charset[k] == CharOf(k)
  {
    if 1 <= k < 11 {
      NumeralIs(k - 1);
    } else if 11 <= k < 37 {
      CapitalIs(k - 11);
    } else if k >= 38 {
      LetterIs(k - 38);
    }
  }

  /** There are 64 characters, in the order of their digits. */
  lemma CharsetOrder(i: nat, j: nat)
    requires i < 64 && j < 64
    ensures |Charset| == 64
    ensures Charset[i] < Charset[j] <==> i < j
    ensures Charset[i] == Charset[j] <==> i == j
  {
    CharsetIs(i);
    CharsetIs(j);
    CharOfOrder(i, j);
  }

  lemma CharOfOrder(i: nat, j: nat)
    requires i < 64 && j < 64
    ensures CharOf(i) < CharOf(j) <==> i < j
    ensures CharOf(i) == CharOf(j) <==> i == j
  {
  }

  function CharOf(d: nat): char
    requires d < 64
  {
    if d == 0 then '-'
    else if d < 11 then '0' + (d - 1) as char
    else if d < 37 then 'A' + (d - 11) as char
    else if d == 37 then '_'
    else 'a' + (d - 38) as char
  }

  // ------------------------------------------------- time as characters

  /** The last n digits of t, in base 64. */
  function Digits(t: nat, n: nat): (s: string)
    ensures |s| == n
  {
    if n == 0 then [] else Digits(t / 64, n - 1) + [CharOf(t % 64)]
  }

  function Digit(c: char): (d: nat)
    ensures d < 64
  {
    if c == '-' then 0
    else if '0' <= c <= '9' then (c - '0') as nat + 1
    else if 'A' <= c <= 'Z' then (c - 'A') as nat + 11
    else if c == '_' then 37
    else if 'a' <= c <= 'z' then (c - 'a') as nat + 38
    else 0
  }

  lemma DigitOfChar(d: nat)
    requires d < 64
    ensures Digit(CharOf(d)) == d
  {
  }

  function Decode(s: string): nat {
    if s == [] then 0 else Decode(s[..|s| - 1]) * 64 + Digit(s[|s| - 1])
  }

  /** Decoding gives back the time, as far as the digits reach. */
  lemma {:induction false} DecodeDigits(t: nat, n: nat)
    ensures Decode(Digits(t, n)) == t % Pow64(n)
    decreases n
  {
    if n > 0 {
      var s := Digits(t, n);
      assert s[..|s| - 1] == Digits(t / 64, n - 1);
      DecodeDigits(t / 64, n - 1);
      ModSplit(t, Pow64(n - 1));
      DigitOfChar(t % 64);
    }
  }

  /** Ids are ordered by their time, as far as its digits reach, and then by what follows. */
  lemma {:induction false} DigitsOrder(t: nat, u: nat, n: nat, salt: string, salt': string)
    ensures Less(Digits(t, n) + salt, Digits(u, n) + salt')
      <==> t % Pow64(n) < u % Pow64(n) || (t % Pow64(n) == u % Pow64(n) && Less(salt, salt'))
    decreases n
  {
    if n == 0 {
      assert [] + salt == salt && [] + salt' == salt';
    } else {
      var c, d := CharOf(t % 64), CharOf(u % 64);
      LastDigit(t, n, salt);
      LastDigit(u, n, salt');
      DigitsOrder(t / 64, u / 64, n - 1, [c] + salt, [d] + salt');
      LessCons(c, salt, d, salt');
      CharOfOrder(t % 64, u % 64);
      SplitOrder(t, u, Pow64(n - 1));
    }
  }

  lemma LastDigit(t: nat, n: nat, salt: string)
    requires n > 0
    ensures Digits(t, n) + salt == Digits(t / 64, n - 1) + ([CharOf(t % 64)] + salt)
  {
  }

  /** Times are ordered by all digits but the last, and then by that. */
  lemma SplitOrder(t: nat, u: nat, p: nat)
    requires p > 0
    ensures var high, high' := (t / 64) % p, (u / 64) % p;
      && (t % (64 * p) < u % (64 * p) <==> high < high' || (high == high' && t % 64 < u % 64))
      && (t % (64 * p) == u % (64 * p) <==> high == high' && t % 64 == u % 64)
  {
    ModSplit(t, p);
    ModSplit(u, p);
  }

  function Id(time: nat, salt: string): string { Digits(time, TimeChars) + salt }

  /** Two ids with salts of the same length are the same exactly when time, as far as 42 bits reach, and salt are. */
  lemma IdsDiffer(t: nat, salt: string, u: nat, salt': string)
    requires |salt| == |salt'|
    ensures Id(t, salt) == Id(u, salt') <==> t % 0x400_0000_0000 == u % 0x400_0000_0000 && salt == salt'
  {
    TimeBits();
    if Id(t, salt) == Id(u, salt') {
      assert Digits(t, TimeChars) == Id(t, salt)[..TimeChars] == Digits(u, TimeChars);
      assert salt == Id(t, salt)[TimeChars..] == salt';
      DecodeDigits(t, TimeChars);
      DecodeDigits(u, TimeChars);
    } else if t % 0x400_0000_0000 == u % 0x400_0000_0000 {
      SameDigits(t, u, TimeChars);
    }
  }

  lemma {:induction false} SameDigits(t: nat, u: nat, n: nat)
    requires t % Pow64(n) == u % Pow64(n)
    ensures Digits(t, n) == Digits(u, n)
    decreases n
  {
    if n > 0 {
      ModSplit(t, Pow64(n - 1));
      ModSplit(u, Pow64(n - 1));
      SameDigits(t / 64, u / 64, n - 1);
    }
  }

  /** An id made later is greater exactly when the time has not overflowed 42 bits in between, or is a whole turn on. */
  lemma LaterIsGreater(t: nat, salt: string, u: nat, salt': string)
    ensures Less(Id(t, salt), Id(u, salt')) <==>
      var a, b := t % 0x400_0000_0000, u % 0x400_0000_0000;
      a < b || (a == b && Less(salt, salt'))
  {
    TimeBits();
    DigitsOrder(t, u, TimeChars, salt, salt');
  }

  /** What a run of the factory makes: ids of strictly increasing times, with salts of one length. */
  ghost predicate Issued(ids: seq<string>, times: seq<nat>, salts: seq<string>, saltChars: nat, last: nat) {
    && |ids| == |times| == |salts|
    && (forall i | 0 <= i < |ids| :: ids[i] == Id(times[i], salts[i]) && |salts[i]| == saltChars)
    && (forall i, j | 0 <= i < j < |times| :: times[i] < times[j])
    && (forall i | 0 <= i < |times| :: times[i] <= last)
  }

  /** While time fits 42 bits, all ids of a run are strictly increasing, and so no two are the same. */
  lemma IssuedIncrease(ids: seq<string>, times: seq<nat>, salts: seq<string>, saltChars: nat, last: nat)
    requires Issued(ids, times, salts, saltChars, last) && last < 0x400_0000_0000
    ensures forall i, j | 0 <= i < j < |ids| :: Less(ids[i], ids[j]) && ids[i] != ids[j]
  {
    forall i, j | 0 <= i < j < |ids| ensures Less(ids[i], ids[j]) && ids[i] != ids[j] {
      BeforeOverflow(times[i], salts[i], times[j], salts[j]);
      LessIrreflexive(ids[i]);
    }
  }

  lemma BeforeOverflow(t: nat, salt: string, u: nat, salt': string)
    requires t < u < 0x400_0000_0000
    ensures Less(Id(t, salt), Id(u, salt'))
  {
    ModUnique(t, 0x400_0000_0000, 0, t);
    ModUnique(u, 0x400_0000_0000, 0, u);
    LaterIsGreater(t, salt, u, salt');
  }

  /** And each has the same length, and decodes to its time. */
  lemma IssuedDecode(ids: seq<string>, times: seq<nat>, salts: seq<string>, saltChars: nat, last: nat, i: nat)
    requires Issued(ids, times, salts, saltChars, last) && i < |ids|
    ensures |ids[i]| == TimeChars + saltChars
    ensures Decode(ids[i][..TimeChars]) == times[i] % 0x400_0000_0000
  {
    TimeBits();
    assert ids[i][..TimeChars] == Digits(times[i], TimeChars);
    DecodeDigits(times[i], TimeChars);
  }

  /** Puts the characters of a time in front of the salt, the last digit first. */
  method Encode(time: nat, salt: string) returns (id: string)
    ensures id == Id(time, salt)
  {
    var timeValue: int, bitsUsed := time, 0;
    id := salt;
    ghost var left: nat := TimeChars;
    while bitsUsed < 42
      invariant bitsUsed == 6 * (TimeChars - left) && left <= TimeChars && timeValue >= 0
      invariant Digits(timeValue, left) + id == Id(time, salt)
      decreases 42 - bitsUsed
    {
      var lowSixBits := timeValue % 64;
      LastDigit(timeValue, left, id);
      CharsetIs(lowSixBits);
      id := [Charset[lowSixBits]] + id;
      timeValue := timeValue / 64;
      bitsUsed := bitsUsed + 6;
      left := left - 1;
    }
    assert Digits(timeValue, 0) + id == id;
  }

  class SaltedTimeIDFactory {
    const saltChars: nat
    var salt: string
    var lastTime: nat
    ghost var ids: seq<string>
    ghost var times: seq<nat>
    ghost var salts: seq<string>

    ghost predicate Valid()
      reads this
    {
      |salt| == saltChars && Issued(ids, times, salts, saltChars, lastTime)
    }

    constructor (salt: string)
      ensures Valid() && lastTime == 0 && saltChars == |salt| && ids == []
    {
      this.salt, saltChars, lastTime := salt, |salt|, 0;
      ids, times, salts := [], [], [];
    }

    /** Makes an id of the time, or of the last time plus one if the clock has not moved on. */
    method CreateId(now: int) returns (id: string)
      requires Valid()
      modifies this
      ensures Valid() && salt == old(salt)
      ensures lastTime == if now <= old(lastTime) then old(lastTime) + 1 else now
      ensures id == Id(lastTime, salt)
      ensures ids == old(ids) + [id] && times == old(times) + [lastTime] && salts == old(salts) + [salt]
    {
      var timeValue: int := now;
      if timeValue <= lastTime {
        timeValue := lastTime + 1;
      }
      lastTime := timeValue;
      id := Encode(timeValue, salt);
      ids, times, salts := ids + [id], times + [lastTime], salts + [salt];
    }

    /** After a duplicate was reported: a new salt, and an id that is later still. */
    method ReplaceDuplicate(newSalt: string, now: int) returns (id: string)
      requires Valid() && |newSalt| == saltChars
      modifies this
      ensures Valid() && salt == newSalt
      ensures lastTime == if now <= old(lastTime) then old(lastTime) + 1 else now
      ensures id == Id(lastTime, newSalt)
      ensures ids == old(ids) + [id] && times == old(times) + [lastTime] && salts == old(salts) + [salt]
    {
      salt := newSalt;
      id := CreateId(now);
    }
  }
}
