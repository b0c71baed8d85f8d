/** Identifiers: Go's string order, and the idempotency key built from a user id and an account id. */
module Ids {

  // ---------- string order ----------

  /** Go's `<` on strings: lexicographic by character. */
  predicate Less(a: string, b: string)
  {
    |b| > 0 && (|a| == 0 || a[0] < b[0] || (a[0] == b[0] && Less(a[1..], b[1..])))
  }

  lemma {:induction false} LessIrreflexive(a: string)
    ensures !Less(a, a)
  {
    if |a| > 0 { LessIrreflexive(a[1..]); }
  }

  lemma {:induction false} LessTransitive(a: string, b: string, c: string)
    requires Less(a, b) && Less(b, c)
    ensures Less(a, c)
  {
    if |a| > 0 && a[0] == b[0] && b[0] == c[0] {
      LessTransitive(a[1..], b[1..], c[1..]);
    }
  }

  lemma {:induction false} LessTotal(a: string, b: string)
    ensures Less(a, b) || a == b || Less(b, a)
  {
    if |a| > 0 && |b| > 0 && a[0] == b[0] {
      LessTotal(a[1..], b[1..]);
      assert a[1..] == b[1..] ==> a == [a[0]] + a[1..] == [b[0]] + b[1..] == b;
    }
  }

  /** A string is less than another if it is a proper prefix of it, or smaller at the first place where they differ. */
  lemma {:induction false} LessIsLexicographic(a: string, b: string)
    ensures Less(a, b) <==> a < b || exists k :: 0 <= k < |a| && k < |b| && a[..k] == b[..k] && a[k] < b[k]
  {
    if |a| > 0 && |b| > 0 {
      if a[0] == b[0] {
        LessIsLexicographic(a[1..], b[1..]);
        assert a == [a[0]] + a[1..] && b == [b[0]] + b[1..];
        if k :| 0 <= k < |a| - 1 && k < |b| - 1 && a[1..][..k] == b[1..][..k] && a[1..][k] < b[1..][k] {
          assert a[..k + 1] == [a[0]] + a[1..][..k] && b[..k + 1] == [b[0]] + b[1..][..k];
          assert a[k + 1] < b[k + 1];
        }
        if k :| 0 <= k < |a| && k < |b| && a[..k] == b[..k] && a[k] < b[k] {
          assert a[1..][..k - 1] == a[..k][1..] && b[1..][..k - 1] == b[..k][1..];
          assert a[1..][k - 1] < b[1..][k - 1];
        }
        assert a < b <==> a[1..] < b[1..];
      } else {
        forall k | 0 < k < |a| && k < |b| ensures a[..k] != b[..k] { SamePrefix(a, b, k); }
        SamePrefix(a, b, |a|);
        assert a[..0] == b[..0];
      }
    }
  }

  lemma SamePrefix(a: string, b: string, k: nat)
    requires |a| > 0 && |b| > 0
    ensures 0 < k <= |a| && k <= |b| && a[..k] == b[..k] ==> a[0] == b[0]
  {
    if 0 < k <= |a| && k <= |b| && a[..k] == b[..k] {
      assert a[..k][0] == a[0] && b[..k][0] == b[0];
    }
  }

  /** The two account ids in the order in which both repository methods visit them. */
  function Ordered(x: string, y: string): (r: seq<string>)
    ensures |r| == 2
  {
    if Less(y, x) then [y, x] else [x, y]
  }

  /** Both directions of a transfer visit its two accounts in the same, increasing order. */
  lemma OrderedIsSymmetric(x: string, y: string)
    ensures forall a :: a in Ordered(x, y) <==> a in {x, y}
    ensures Ordered(x, y) == Ordered(y, x)
    ensures x != y ==> Less(Ordered(x, y)[0], Ordered(x, y)[1])
  {
    LessTotal(x, y);
    if Less(x, y) && Less(y, x) {
      LessTransitive(x, y, x);
      LessIrreflexive(x);
    }
  }

  // ---------- idempotency keys ----------

  function Key(userId: string, accountId: string): string
  {
    userId + "_" + accountId
  }

  predicate HasSuffix(s: string, suffix: string)
  {
    |suffix| <= |s| && s[|s| - |suffix|..] == suffix
  }

  /** Go's `strings.TrimSuffix`. */
  function TrimSuffix(s: string, suffix: string): string
  {
    if HasSuffix(s, suffix) then s[..|s| - |suffix|] else s
  }

  /** The key the relay deletes for an outbox row: the user id is recovered from the stored key. */
  function ReleasedKey(storedKey: string, partitionKey: string): string
  {
    Key(TrimSuffix(storedKey, "_" + partitionKey), partitionKey)
  }

  /** Trimming undoes key construction, for every pair of strings. */
  lemma TrimRecoversUser(userId: string, accountId: string)
    ensures TrimSuffix(Key(userId, accountId), "_" + accountId) == userId
  {
    var k, suffix := Key(userId, accountId), "_" + accountId;
    assert k == userId + suffix;
  }

  /** The relay releases exactly the stored key if and only if that key ends in the row's partition. */
  lemma ReleaseIsExact(storedKey: string, partitionKey: string)
    ensures ReleasedKey(storedKey, partitionKey) == storedKey <==> HasSuffix(storedKey, "_" + partitionKey)
  {
    var suffix := "_" + partitionKey;
    var released := ReleasedKey(storedKey, partitionKey);
    assert released == TrimSuffix(storedKey, suffix) + suffix;
    if !HasSuffix(storedKey, suffix) {
      assert |released| > |storedKey|;
    }
  }

  lemma ReleaseOfTakenKey(userId: string, accountId: string)
    ensures ReleasedKey(Key(userId, accountId), accountId) == Key(userId, accountId)
  {
    TrimRecoversUser(userId, accountId);
  }

  /** The second pair moves a separator: the first user id is cut at an underscore. */
  ghost predicate Shifted(u: string, a: string, v: string, b: string)
  {
    exists w: string :: v == u + "_" + w && a == w + "_" + b
  }

  /** Two pairs share a key exactly when they are equal or one shifts a separator of the other. */
  lemma KeyCollisions(u: string, a: string, v: string, b: string)
    ensures Key(u, a) == Key(v, b) <==> (u == v && a == b) || Shifted(u, a, v, b) || Shifted(v, b, u, a)
  {
    if Key(u, a) == Key(v, b) {
      if |u| == |v| {
        assert u == Key(u, a)[..|u|] == Key(v, b)[..|v|] == v;
        assert a == Key(u, a)[|u| + 1..] == Key(v, b)[|v| + 1..] == b;
      } else if |u| < |v| {
        KeyShift(u, a, v, b);
      } else {
        KeyShift(v, b, u, a);
      }
    } else {
      ShiftedShareKey(u, a, v, b);
      ShiftedShareKey(v, b, u, a);
    }
  }

  lemma ShiftedShareKey(u: string, a: string, v: string, b: string)
    ensures Shifted(u, a, v, b) ==> Key(u, a) == Key(v, b)
  {
    if Shifted(u, a, v, b) {
      var w: string :| v == u + "_" + w && a == w + "_" + b;
      assert u + "_" + (w + "_" + b) == u + "_" + w + "_" + b;
    }
  }

  lemma KeyShift(u: string, a: string, v: string, b: string)
    requires Key(u, a) == Key(v, b) && |u| < |v|
    ensures Shifted(u, a, v, b)
  {
    var k, w := Key(u, a), v[|u| + 1..];
    assert u == k[..|u|] == v[..|u|];
    assert k[|u|] == '_' == v[|u|];
    assert v == u + "_" + w;
    assert a == k[|u| + 1..];
    assert k == v + "_" + b == u + "_" + (w + "_" + b);
    assert a == w + "_" + b;
  }

  /** On user ids without an underscore (UUIDs, say) distinct pairs never share a lock. */
  lemma KeyInjective(u: string, a: string, v: string, b: string)
    requires '_' !in u && '_' !in v
    requires Key(u, a) == Key(v, b)
    ensures u == v && a == b
  {
    KeyCollisions(u, a, v, b);
    ShiftedHasSeparator(u, a, v, b);
    ShiftedHasSeparator(v, b, u, a);
  }

  lemma ShiftedHasSeparator(u: string, a: string, v: string, b: string)
    ensures Shifted(u, a, v, b) ==> '_' in v
  {
    if Shifted(u, a, v, b) {
      var w: string :| v == u + "_" + w && a == w + "_" + b;
      assert v[|u|] == '_';
    }
  }

  /** Without that restriction two users can block one another. */
  lemma KeyNotInjective()
    ensures Key("a_b", "c") == Key("a", "b_c")
  {
    assert Key("a_b", "c") == "a_b_c" == Key("a", "b_c");
  }
}
