/** InfrastructureLayer/Repositories/PasswordHandler.cs: creating and checking password hashes.
    HMAC-SHA512 and UTF-8 encoding are foreign code; both are parameters here (`hmac(key,
    message)` and `utf8(text)`), and so is the random key `new HMACSHA512()` draws. What is
    modelled is the byte-array comparison, `AreEqualArrays`, and the two calls around it. */
module Passwords {
  import opened Messages
  import opened Entities

  /** How `AreEqualArrays` ends: it returns a boolean, or line 52 indexes past the end of the
      stored hash and throws. */
  datatype Outcome = Returns(equal: bool) | Throws(exception: Message)

  /** The index at which the loop of lines 50-54, started at `i`, stops: the first index from
      `i` on where `b` has no byte or a different one, or `|a|` when there is none. */
  function StopFrom(a: seq<byte>, b: seq<byte>, i: nat): (n: nat)
    requires i <= |a|
    ensures i <= n <= |a|
    ensures n > i ==> n <= |b|
    ensures forall j :: i <= j < n ==> a[j] == b[j]
    ensures n < |a| ==> n >= |b| || a[n] != b[n]
    decreases |a| - i
  {
    if i == |a| then i
    else if i >= |b| || a[i] != b[i] then i
    else StopFrom(a, b, i + 1)
  }

  /** Where the loop stops. */
  function StopIndex(a: seq<byte>, b: seq<byte>): (n: nat)
    ensures n <= |a|
    ensures n > 0 ==> n <= |b|
    ensures forall j :: 0 <= j < n ==> a[j] == b[j]
    ensures n < |a| ==> n >= |b| || a[n] != b[n]
  {
    StopFrom(a, b, 0)
  }

  /** What `AreEqualArrays(a, b)` does: true when the loop runs out, false at a differing
      byte, an `IndexOutOfRangeException` when `b` ends first. */
  function Compare(a: seq<byte>, b: seq<byte>): (r: Outcome)
    ensures r.Throws? ==> r.exception == IndexOutOfRange && |b| < |a|
    ensures r.Returns? ==> (r.equal <==> forall i :: 0 <= i < |a| ==> i < |b| && a[i] == b[i])
  {
    var n := StopIndex(a, b);
    if n == |a| then Returns(true)
    else if n >= |b| then Throws(IndexOutOfRange)
    else Returns(false)
  }

  /** With a stored hash at least as long as the computed one, the comparison answers whether
      every byte of `a` equals the byte of `b` at the same index; the bytes of `b` past `|a|`
      are never read. An empty `a` is equal to anything. */
  lemma CompareOnLongEnough(a: seq<byte>, b: seq<byte>)
    requires |b| >= |a|
    ensures Compare(a, b) == Returns(forall i :: 0 <= i < |a| ==> a[i] == b[i])
    ensures Compare(a, b) == Returns(a == b[..|a|])
  {
    var n := StopIndex(a, b);
    if n < |a| {
      assert a[n] != b[..|a|][n];
    } else {
      assert a == b[..|a|];
    }
  }

  /** The comparison throws exactly when `b` is shorter than `a` and is a prefix of it: any
      differing byte before `b`'s end stops the loop first. */
  lemma CompareThrowsOnShortPrefix(a: seq<byte>, b: seq<byte>)
    ensures Compare(a, b).Throws? <==> |b| < |a| && b == a[..|b|]
    ensures Compare(a, b).Throws? ==> Compare(a, b).exception == IndexOutOfRange
  {
    var n := StopIndex(a, b);
    if Compare(a, b).Throws? {
      assert n == |b|;
      forall j | 0 <= j < |b|
        ensures b[j] == a[..|b|][j]
      {
        assert a[j] == b[j];
      }
    }
  }

  /** On arrays of equal length the comparison is plain equality, never an exception. Both
      hashes `VerifyPasswordHash` compares are 64-byte HMAC-SHA512 outputs, so a time-constant
      comparison such as `FixedTimeEquals` below gives the same answers there. */
  lemma CompareOnEqualLengths(a: seq<byte>, b: seq<byte>)
    requires |a| == |b|
    ensures Compare(a, b) == Returns(a == b)
  {
    CompareOnLongEnough(a, b);
    assert b[..|a|] == b;
  }

  /** The number of byte comparisons the loop makes before it stops: one per index it passes,
      plus the differing one; an index past `b`'s end throws before comparing. */
  ghost function Comparisons(a: seq<byte>, b: seq<byte>): nat
  {
    var n := StopIndex(a, b);
    if n < |a| && n < |b| then n + 1 else n
  }

  /** `AreEqualArrays`, lines 48-56: an index loop over `computedHash` that returns at the first
      differing byte. Neither array is written. `comparisons` counts the byte comparisons. */
  method AreEqualArrays(computedHash: array<byte>, passwordHash: array<byte>) returns (r: Outcome, ghost comparisons: nat)
    ensures r == Compare(computedHash[..], passwordHash[..])
    ensures comparisons == Comparisons(computedHash[..], passwordHash[..])
  {
    ghost var n := StopIndex(computedHash[..], passwordHash[..]);
    comparisons := 0;
    var i := 0;
    while i < computedHash.Length
      invariant i <= n
      invariant comparisons == i
    {
      if i >= passwordHash.Length {
        assert n == i;
        return Throws(IndexOutOfRange), comparisons;
      }
      comparisons := comparisons + 1;
      if computedHash[i] != passwordHash[i] {
        assert computedHash[..][i] != passwordHash[..][i];
        return Returns(false), comparisons;
      }
      i := i + 1;
    }
    return Returns(true), comparisons;
  }

  /** The doc comment of line 43 promises a time-constant comparison, but the loop returns at
      the first differing byte: two wrong hashes of the full length take different numbers of
      comparisons, one for a wrong first byte and two for a right first byte, so the time
      reveals how long a prefix of the stored hash a guess matches. */
  lemma EarlyExitLeaksTheMatchingPrefix()
    ensures Compare([7, 7], [0, 7]) == Compare([7, 7], [7, 0]) == Returns(false)
    ensures Comparisons([7, 7], [0, 7]) == 1
    ensures Comparisons([7, 7], [7, 0]) == 2
  {
    assert StopFrom([7, 7], [7, 0], 1) == 1;
  }

  /** A time-constant comparison, as .NET's `CryptographicOperations.FixedTimeEquals` does it:
      unequal lengths are answered at once, and otherwise every index is compared, the
      differences accumulated and tested only at the end. The work depends on the lengths
      alone. */
  method FixedTimeEquals(left: array<byte>, right: array<byte>) returns (r: bool, ghost comparisons: nat)
    ensures r <==> left[..] == right[..]
    ensures comparisons == if left.Length == right.Length then left.Length else 0
  {
    comparisons := 0;
    if left.Length != right.Length {
      return false, comparisons;
    }
    var differences := 0;
    for i := 0 to left.Length
      invariant differences == 0 <==> left[..i] == right[..i]
      invariant comparisons == i
    {
      assert left[..i + 1] == left[..i] + [left[i]] && right[..i + 1] == right[..i] + [right[i]];
      differences := differences + if left[i] == right[i] then 0 else 1;
      comparisons := comparisons + 1;
    }
    assert left[..] == left[..left.Length] && right[..] == right[..right.Length];
    r := differences == 0;
  }

  /** The array that holds a byte sequence, as `ComputeHash` returns one. */
  method ToArray(s: seq<byte>) returns (a: array<byte>)
    ensures fresh(a) && a[..] == s
  {
    a := new byte[|s|](i requires 0 <= i < |s| => s[i]);
  }

  /** `CreateSaltAndHash`, lines 20-25: `key` is the random key of a new HMAC; the hash is the
      HMAC of the password's UTF-8 bytes under that key, and the salt is the key itself. */
  method CreateSaltAndHash(hmac: (seq<byte>, seq<byte>) -> seq<byte>, utf8: string -> seq<byte>,
                           key: seq<byte>, password: string)
    returns (passwordHash: array<byte>, passwordSalt: array<byte>)
    ensures fresh(passwordHash) && fresh(passwordSalt)
    ensures passwordHash[..] == hmac(key, utf8(password))
    ensures passwordSalt[..] == key
  {
    passwordHash := ToArray(hmac(key, utf8(password)));
    passwordSalt := ToArray(key);
  }

  /** `VerifyPasswordHash`, lines 34-40: the HMAC of the password under the stored salt,
      compared with the stored hash. */
  method VerifyPasswordHash(hmac: (seq<byte>, seq<byte>) -> seq<byte>, utf8: string -> seq<byte>,
                            password: string, passwordHash: array<byte>, passwordSalt: array<byte>)
    returns (r: Outcome)
    ensures r == Compare(hmac(passwordSalt[..], utf8(password)), passwordHash[..])
  {
    var computedHash := ToArray(hmac(passwordSalt[..], utf8(password)));
    ghost var comparisons;
    r, comparisons := AreEqualArrays(computedHash, passwordHash);
  }

  /** A password checks against the hash and salt `CreateSaltAndHash` made from it: the
      recomputed hash is the stored one, and a hash compares equal to itself. */
  method CreatedHashVerifies(hmac: (seq<byte>, seq<byte>) -> seq<byte>, utf8: string -> seq<byte>,
                             key: seq<byte>, password: string)
    returns (r: Outcome)
    ensures r == Returns(true)
  {
    var passwordHash, passwordSalt := CreateSaltAndHash(hmac, utf8, key, password);
    r := VerifyPasswordHash(hmac, utf8, password, passwordHash, passwordSalt);
    CompareOnEqualLengths(passwordHash[..], passwordHash[..]);
  }
}
