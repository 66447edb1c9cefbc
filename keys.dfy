/** Job keys and advisory-lock ids: `jobKey` and `jobLockToLockID`. */
module JobKeys {
  import opened Types

  /** The key that identifies a job in the registry: "<tenant>:<name>". */
  function JobKey(name: string, tenantId: string): (key: string)
    ensures |key| == |tenantId| + 1 + |name|
    ensures key[|tenantId|] == ':'
  {
    tenantId + ":" + name
  }

  /** The registry key of a job. */
  function KeyOf(job: Job): string
  {
    JobKey(job.name, job.tenantId)
  }

  /** The key is exactly the tenant, one ':' and the name, in that order. */
  lemma JobKeyLayout(name: string, tenantId: string)
    ensures |JobKey(name, tenantId)| == |tenantId| + 1 + |name|
    ensures JobKey(name, tenantId)[..|tenantId|] == tenantId
    ensures JobKey(name, tenantId)[|tenantId|] == ':'
    ensures JobKey(name, tenantId)[|tenantId| + 1..] == name
  {
  }

  /** Within one tenant the key determines the name. */
  lemma JobKeySameTenant(name1: string, name2: string, tenantId: string)
    requires JobKey(name1, tenantId) == JobKey(name2, tenantId)
    ensures name1 == name2
  {
    JobKeyLayout(name1, tenantId);
    JobKeyLayout(name2, tenantId);
  }

  /** When no tenant id contains ':' the key determines both parts. */
  lemma JobKeyInjectiveWithoutColon(name1: string, tenant1: string, name2: string, tenant2: string)
    requires ':' !in tenant1 && ':' !in tenant2
    requires JobKey(name1, tenant1) == JobKey(name2, tenant2)
    ensures name1 == name2 && tenant1 == tenant2
  {
    var k := JobKey(name1, tenant1);
    JobKeyLayout(name1, tenant1);
    JobKeyLayout(name2, tenant2);
    // The first ':' of the key sits at |tenant1| and also at |tenant2|.
    if |tenant1| < |tenant2| {
      assert false;
    } else if |tenant2| < |tenant1| {
      assert false;
    }
  }

  /** The key is not injective in general: moving a ':'-separated part from
      the end of the tenant to the front of the name gives the same key. */
  lemma JobKeyCollision(name: string, tenantId: string, middle: string)
    ensures JobKey(name, tenantId + ":" + middle) == JobKey(middle + ":" + name, tenantId)
  {
  }

  /** A concrete pair of distinct jobs identities that share one key. */
  lemma JobKeyNotInjective()
    ensures exists n1: string, t1: string, n2: string, t2: string ::
      (n1, t1) != (n2, t2) && JobKey(n1, t1) == JobKey(n2, t2)
  {
    JobKeyCollision("c", "a", "b");
    assert ("c", "a:b") != ("b:c", "a");
  }

  // The djb2 hash over the code points of a string, with 32-bit wrap-around.

  const Modulus: int := 0x1_0000_0000
  const HashSeed: int := 5381

  /** Reduce modulo 2^32, as every `uint32` operation in Go does. */
  function Wrap(x: int): (r: int)
    ensures 0 <= r < Modulus
  {
    x % Modulus
  }

  /** One step of the hash: h * 33 + c, modulo 2^32. */
  function Step(h: int, c: char): int
  {
    Wrap(h * 33 + c as int)
  }

  /** Left fold of `Step` over the characters of `s`, starting from `h`. */
  function Djb(h: int, s: string): (r: int)
    ensures 0 <= h < Modulus ==> 0 <= r < Modulus
    decreases |s|
  {
    if s == [] then h else Djb(Step(h, s[0]), s[1..])
  }

  /** The lock hash of a key. */
  function LockHash(key: string): uint32
  {
    Djb(HashSeed, key) as uint32
  }

  /** The advisory-lock id used for a job with lock string `lock`: the hash
      of `jobKey(lock, tenantId)`, widened to `int64`. */
  function LockId(lock: string, tenantId: string): (id: int64)
    ensures 0 <= id as int < Modulus
  {
    LockHash(JobKey(lock, tenantId)) as int as int64
  }

  /** The fold extends by one character at the end. */
  lemma {:induction false} DjbSnoc(h: int, s: string, c: char)
    ensures Djb(h, s + [c]) == Step(Djb(h, s), c)
    decreases |s|
  {
    if s == [] {
      assert [c][1..] == [];
    } else {
      assert (s + [c])[1..] == s[1..] + [c];
      DjbSnoc(Step(h, s[0]), s[1..], c);
    }
  }

  /** Hashing a concatenation continues from the hash of the first part. */
  lemma {:induction false} DjbAppend(h: int, s: string, t: string)
    ensures Djb(h, s + t) == Djb(Djb(h, s), t)
    decreases |s|
  {
    if s == [] {
      assert s + t == t;
    } else {
      assert (s + t)[1..] == s[1..] + t;
      DjbAppend(Step(h, s[0]), s[1..], t);
    }
  }

  /** Adding after a reduction is the same as reducing the sum. */
  lemma WrapAdd(x: int, y: int)
    ensures Wrap(Wrap(x) + y) == Wrap(x + y)
  {
    var q := x / Modulus;
    assert x == q * Modulus + Wrap(x);
    assert x + y == (Wrap(x) + y) + q * Modulus;
  }

  /** `(h << 5) + h + c` in uint32 arithmetic is one `Step`. */
  lemma ShiftAddIsStep(h: int, c: char)
    requires 0 <= h < Modulus
    ensures Wrap(Wrap(Wrap(h * 32) + h) + c as int) == Step(h, c)
  {
    WrapAdd(h * 32, h);
    WrapAdd(h * 32 + h, c as int);
  }

  /** jobLockToLockID(jobName, tenantId): djb2 over the runes of the key,
      computed with Go's wrapping uint32 shift and additions. */
  method JobLockToLockID(jobName: string, tenantId: string) returns (hash: uint32)
    ensures hash == LockHash(JobKey(jobName, tenantId))
  {
    var key := JobKey(jobName, tenantId);
    hash := 5381;
    var i := 0;
    while i < |key|
      invariant 0 <= i <= |key|
      invariant hash as int == Djb(HashSeed, key[..i])
    {
      var c := key[i];
      ShiftAddIsStep(hash as int, c);
      DjbSnoc(HashSeed, key[..i], c);
      assert key[..i + 1] == key[..i] + [c];
      hash := Wrap(Wrap(Wrap(hash as int * 32) + hash as int) + c as int) as uint32;
      i := i + 1;
    }
    assert key[..i] == key;
  }

  /** The hash of a key is the hash of the tenant, continued over ':' and
      then over the lock string. */
  lemma LockIdSplits(lock: string, tenantId: string)
    ensures LockId(lock, tenantId) as int == Djb(Step(Djb(HashSeed, tenantId), ':'), lock)
  {
    DjbAppend(HashSeed, tenantId + ":", lock);
    DjbSnoc(HashSeed, tenantId, ':');
  }
}
