/** The engine-managed timer keys (`src/engine.rs`): `__retry:N` and `__for:N`, rendered
    as text next to the user's own timer names in one shared namespace. */
module TimerKeys {
  import opened Model

  const RETRY_PREFIX: string := "__retry:"
  const FOR_PREFIX: string := "__for:"
  const DIGITS: string := "0123456789"

  function Decimal(n: nat): (text: string)
    ensures |text| > 0
  {
    if n < 10 then [DIGITS[n]] else Decimal(n / 10) + [DIGITS[n % 10]]
  }

  function ReadDigit(c: char): nat {
    if '0' <= c <= '9' then (c - '0') as nat else 0
  }

  /** Reads a rendering back; the inverse that makes generated keys distinct. */
  function ReadDecimal(text: string): nat {
    if text == "" then 0
    else 10 * ReadDecimal(text[..|text| - 1]) + ReadDigit(text[|text| - 1])
  }

  lemma {:induction false} DecimalReadsBack(n: nat)
    ensures ReadDecimal(Decimal(n)) == n
  {
    var text := Decimal(n);
    if n < 10 {
      assert text[..|text| - 1] == "";
    } else {
      assert text[..|text| - 1] == Decimal(n / 10);
      DecimalReadsBack(n / 10);
    }
  }

  predicate IsRetryKey(key: TimerKey) { RETRY_PREFIX <= key }

  predicate IsForKey(key: TimerKey) { FOR_PREFIX <= key }

  function RetryKey(n: nat): TimerKey { RETRY_PREFIX + Decimal(n) }

  function ForKey(n: nat): TimerKey { FOR_PREFIX + Decimal(n) }

  /** The counter a generated key was made from. */
  function Serial(key: TimerKey): nat {
    if IsRetryKey(key) then ReadDecimal(key[|RETRY_PREFIX|..])
    else if IsForKey(key) then ReadDecimal(key[|FOR_PREFIX|..])
    else 0
  }

  /** How the engine names and recognises its own timers. The event loop uses nothing else
      about the text of a key. */
  datatype KeyScheme = KeyScheme(
    retry: nat -> TimerKey,
    sustained: nat -> TimerKey,
    isRetry: TimerKey -> bool,
    isFor: TimerKey -> bool,
    serial: TimerKey -> nat)
  {
    predicate Reserved(key: TimerKey) { isRetry(key) || isFor(key) }

    /** Two disjoint families of keys, each injective in its counter. */
    ghost predicate Valid() {
      && (forall n: nat :: isRetry(retry(n)) && serial(retry(n)) == n)
      && (forall n: nat :: isFor(sustained(n)) && serial(sustained(n)) == n)
      && (forall key: TimerKey :: !(isRetry(key) && isFor(key)))
    }
  }

  const TEXT_KEYS := KeyScheme(RetryKey, ForKey, IsRetryKey, IsForKey, Serial)

  /** The keys `__retry:N` and `__for:N` form such a scheme: distinct counters give
      distinct texts and no text starts with both prefixes. */
  lemma TextKeysAreValid()
    ensures TEXT_KEYS.Valid()
    ensures forall key: TimerKey :: TEXT_KEYS.Reserved(key) <==> "__retry:" <= key || "__for:" <= key
  {
    forall n: nat ensures IsRetryKey(RetryKey(n)) && Serial(RetryKey(n)) == n {
      assert RetryKey(n)[|RETRY_PREFIX|..] == Decimal(n);
      DecimalReadsBack(n);
    }
    forall key: TimerKey ensures !(IsRetryKey(key) && IsForKey(key)) {
      assert IsRetryKey(key) ==> key[2] == RETRY_PREFIX[2];
      assert IsForKey(key) ==> key[2] == FOR_PREFIX[2];
    }
    forall n: nat ensures IsForKey(ForKey(n)) && Serial(ForKey(n)) == n {
      assert ForKey(n)[|FOR_PREFIX|..] == Decimal(n);
      DecimalReadsBack(n);
    }
  }

  /** A key names at most one wait, and a user key outside both prefixes names none. */
  lemma GeneratedKeysDistinct(keys: KeyScheme, m: nat, n: nat, user: TimerKey)
    requires keys.Valid()
    ensures keys.retry(m) == keys.retry(n) <==> m == n
    ensures keys.sustained(m) == keys.sustained(n) <==> m == n
    ensures keys.retry(m) != keys.sustained(n)
    ensures !keys.Reserved(user) ==> user != keys.retry(m) && user != keys.sustained(m)
  {
    assert keys.serial(keys.retry(m)) == m && keys.serial(keys.retry(n)) == n;
    assert keys.serial(keys.sustained(m)) == m && keys.serial(keys.sustained(n)) == n;
  }
}
