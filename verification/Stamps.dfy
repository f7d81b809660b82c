/** The timestamp file: times written in digits, and what is left of one when its write is torn. */
module Stamps {
  import opened Prelude
  import opened AcmeProtocol
  import opened Renewal

  function Parsed(content: Option<string>, parsed: string -> Option<nat>): Option<nat> {
    if content.Some? then parsed(content.value) else None
  }

  /** What a timestamp file reads as, 0 if it does not parse. */
  function Reads(content: Option<string>, parsed: string -> Option<nat>): nat {
    var issued := Parsed(content, parsed);
    if issued.Some? then issued.value else 0
  }

  /** `n` in decimal digits. */
  function Digits(n: nat): (s: string)
    ensures s != []
  {
    if n < 10 then [n as char + '0'] else Digits(n / 10) + [(n % 10) as char + '0']
  }

  /** The number a string of digits writes. */
  function Value(s: string): int {
    if s == [] then 0 else 10 * Value(s[..|s| - 1]) + (s[|s| - 1] as int - '0' as int)
  }

  lemma {:induction false} DigitsWriteTheNumber(n: nat)
    ensures Value(Digits(n)) == n
    ensures forall i :: 0 <= i < |Digits(n)| ==> '0' <= Digits(n)[i] <= '9'
  {
    if n >= 10 {
      DigitsWriteTheNumber(n / 10);
      assert Digits(n)[..|Digits(n)| - 1] == Digits(n / 10);
    } else {
      assert Digits(n)[..0] == [];
    }
  }

  /** `n` without its last `k` digits. */
  function WithoutDigits(n: nat, k: nat): (m: nat)
    ensures k > 0 ==> m <= n / 10
    ensures m <= n
    decreases k
  {
    if k == 0 then n else WithoutDigits(n / 10, k - 1)
  }

  /** Parsing reads digits as the number they write, and nothing as nothing. */
  ghost predicate ReadsDecimal(parsed: string -> Option<nat>) {
    parsed([]) == None && forall n: nat :: n < U64 ==> parsed(Digits(n)) == Some(n)
  }

  lemma {:induction false} DigitsPrefix(n: nat, k: nat)
    requires 1 <= k <= |Digits(n)|
    ensures Digits(n)[..k] == Digits(WithoutDigits(n, |Digits(n)| - k))
  {
    if k == |Digits(n)| {
      assert Digits(n)[..k] == Digits(n);
    } else {
      assert Digits(n)[..k] == Digits(n / 10)[..k];
      DigitsPrefix(n / 10, k);
    }
  }

  lemma {:induction false} NoDigitsLeft(n: nat)
    ensures WithoutDigits(n, |Digits(n)|) == 0
  {
    if n >= 10 {
      NoDigitsLeft(n / 10);
    }
  }

  /** Losing one digit divides by ten. */
  lemma WithoutDigitsIs(n: nat, k: nat)
    ensures WithoutDigits(n, 0) == n && WithoutDigits(n, k + 1) == WithoutDigits(n / 10, k)
  {
  }

  /** How many digits of `at` a write torn after `length` characters loses. */
  function Lost(at: nat, length: nat): nat {
    if length < |Digits(at)| then |Digits(at)| - length else 0
  }

  /** A torn timestamp reads as the time without the digits lost. */
  lemma TornReads(at: nat, length: nat, parsed: string -> Option<nat>)
    requires ReadsDecimal(parsed) && at < U64
    ensures Reads(Some(Prefix(Digits(at), length)), parsed) == WithoutDigits(at, Lost(at, length))
  {
    if length >= |Digits(at)| {
      assert Prefix(Digits(at), length) == Digits(at);
    } else if length == 0 {
      NoDigitsLeft(at);
    } else {
      DigitsPrefix(at, length);
    }
  }

  /** What is left of a stamp when its write is torn reads as no later time. */
  ghost predicate PrefixesReadEarlier(stamp: string, parsed: string -> Option<nat>) {
    forall k :: 0 <= k ==> Reads(Some(Prefix(stamp, k)), parsed) <= Reads(Some(stamp), parsed)
  }

  lemma DigitsReadEarlier(at: nat, parsed: string -> Option<nat>)
    requires ReadsDecimal(parsed) && at < U64
    ensures PrefixesReadEarlier(Digits(at), parsed) && Reads(Some(Digits(at)), parsed) == at
  {
    forall k | 0 <= k
      ensures Reads(Some(Prefix(Digits(at), k)), parsed) <= Reads(Some(Digits(at)), parsed)
    {
      TornReads(at, k, parsed);
    }
  }
}
