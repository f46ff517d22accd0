/** The session manager's table: 64 buckets of entries, newest first. */
module SessionTable {
  import opened Wrappers

  const BUCKETS := 64
  const WORD := 0x1_0000_0000

  /** A key's bytes; keys end at their NUL, which is not part of them. */
  type Key = s: string | forall i | 0 <= i < |s| :: 0 < s[i] as int < 256

  /** The hash without wrap-around: 5381 * 33^n and the bytes as digits to base 33. */
  function Digits(key: string): nat {
    if key == [] then 5381 else 33 * Digits(key[..|key| - 1]) + key[|key| - 1] as nat
  }

  function Bucket(key: string): nat {
    Digits(key) % WORD % BUCKETS
  }

  /** The number the hash wraps, digit by digit. */
  lemma HashDigits(key: string, c: char)
    ensures Digits("") == 5381 && Digits(key + [c]) == 33 * Digits(key) + c as int
  {
    assert (key + [c])[..|key|] == key;
  }

  lemma WrapStep(a: nat, b: nat, c: nat)
    requires b == a % WORD
    ensures (33 * b + c) % WORD == (33 * a + c) % WORD
  {
    var q := a / WORD;
    assert a == WORD * q + b;
    assert 33 * a + c == WORD * (33 * q) + (33 * b + c);
    ModAdds(33 * q, 33 * b + c);
  }

  lemma ModAdds(q: nat, r: nat)
    ensures (WORD * q + r) % WORD == r % WORD
  {
    var s, t := r / WORD, r % WORD;
    assert WORD * q + r == WORD * (q + s) + t;
    Remainder(q + s, t);
  }

  lemma Remainder(q: nat, t: nat)
    requires t < WORD
    ensures (WORD * q + t) % WORD == t
  {
  }

  /** The hash in 32-bit arithmetic, shifting and adding with wrap-around. */
  method BucketOf(key: Key) returns (bucket: nat)
    ensures bucket == Bucket(key) == Digits(key) % 0x1_0000_0000 % 64
  {
    var hash: nat := 5381;
    var i := 0;
    while i < |key|
      invariant i <= |key| && hash == Digits(key[..i]) % WORD
    {
      WrapStep(Digits(key[..i]), hash, key[i] as nat);
      hash := ((hash * 32 + hash) + key[i] as nat) % WORD;
      assert key[..i + 1][..i] == key[..i];
      i := i + 1;
    }
    assert key[..i] == key;
    bucket := hash % BUCKETS;
  }

  // ----- chains of entries

  datatype Chain<S> = End | Entry(key: string, session: S, next: Chain<S>)

  function Find<S>(c: Chain<S>, key: string): Option<S> {
    match c
    case End => None
    case Entry(k, s, next) => if k == key then Some(s) else Find(next, key)
  }

  /** The table refines a map: a session created under a known key hides the older one. */
  class Manager<S> {
    const buckets: array<Chain<S>>
    var count: nat
    ghost var sessions: map<string, S>

    ghost function Held(key: string): Option<S>
      reads this
    {
      if key in sessions then Some(sessions[key]) else None
    }

    ghost predicate Valid()
      reads this, buckets
    {
      buckets.Length == 64 && forall key: string :: Find(buckets[Bucket(key)], key) == Held(key)
    }

    constructor ()
      ensures Valid() && sessions == map[] && count == 0 && fresh(buckets)
    {
      buckets := new Chain<S>[BUCKETS](i => End);
      count, sessions := 0, map[];
    }

    method Get(key: Key) returns (session: Option<S>)
      requires Valid()
      ensures session == if key in sessions then Some(sessions[key]) else None
    {
      var bucket := BucketOf(key);
      var entry := buckets[bucket];
      while entry.Entry?
        invariant Find(entry, key) == Held(key)
        decreases entry
      {
        if entry.key == key {
          return Some(entry.session);
        }
        entry := entry.next;
      }
      return None;
    }

    method Create(key: Key, session: S)
      requires Valid()
      modifies this, buckets
      ensures Valid() && sessions == old(sessions)[key := session] && count == old(count) + 1
    {
      var bucket := BucketOf(key);
      buckets[bucket] := Entry(key, session, buckets[bucket]);
      sessions := sessions[key := session];
      count := count + 1;
      forall k: string ensures Find(buckets[Bucket(k)], k) == Held(k) {
        assert Find(old(buckets[Bucket(k)]), k) == old(Held(k));
      }
    }
  }
}
