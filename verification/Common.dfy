/** Shared names: identifiers, error codes and results (lib/vox_common/types.hpp). */
module Common {
  type UserId = string
  type DeviceId = string
  type ConversationId = string
  type EnvelopeId = string
  type Timestamp = int

  const TWO64: nat := 0x1_0000_0000_0000_0000

  datatype Option<+T> = None | Some(value: T)

  datatype ErrorCode =
    | NotFound | AlreadyExists | Unauthorized | Forbidden | InvalidArgument | Internal
    | QuotaExceeded | QueueFull | Expired | Duplicate

  datatype Result<+T> = Ok(value: T) | Err(code: ErrorCode)

  datatype Unit = Unit

  // ---- DeviceScopeKey -------------------------------------------------------------------------

  const SEPARATOR: char := '\U{1f}'

  /** The key of a device's queue: unique only if user ids avoid the separator. */
  function DeviceScopeKey(user: UserId, device: DeviceId): string { user + [SEPARATOR] + device }

  predicate NoSeparator(user: UserId) { SEPARATOR !in user }

  lemma ScopeKeyInjective(u1: UserId, d1: DeviceId, u2: UserId, d2: DeviceId)
    requires NoSeparator(u1) && NoSeparator(u2)
    requires DeviceScopeKey(u1, d1) == DeviceScopeKey(u2, d2)
    ensures u1 == u2 && d1 == d2
  {
    var k := DeviceScopeKey(u1, d1);
    assert k[|u1|] == SEPARATOR && k[|u2|] == SEPARATOR;
    assert k[..|u1|] == u1 && k[..|u2|] == u2;
    assert k[|u1| + 1..] == d1 && k[|u2| + 1..] == d2;
  }

  /** Exactly when two users can collide at all: one's id continues the other's with a separator. */
  lemma ScopeKeyCollision(u1: UserId, u2: UserId)
    requires u1 != u2
    ensures (exists d1: DeviceId, d2: DeviceId :: DeviceScopeKey(u1, d1) == DeviceScopeKey(u2, d2))
       <==> u1 + [SEPARATOR] <= u2 || u2 + [SEPARATOR] <= u1
  {
    if d1: DeviceId, d2: DeviceId :| DeviceScopeKey(u1, d1) == DeviceScopeKey(u2, d2) {
      CollidingPrefix(u1, d1, u2, d2);
    }
    if u1 + [SEPARATOR] <= u2 {
      assert DeviceScopeKey(u1, u2[|u1| + 1..] + [SEPARATOR]) == DeviceScopeKey(u2, "");
    }
    if u2 + [SEPARATOR] <= u1 {
      assert DeviceScopeKey(u1, "") == DeviceScopeKey(u2, u1[|u2| + 1..] + [SEPARATOR]);
    }
  }

  lemma CollidingPrefix(u1: UserId, d1: DeviceId, u2: UserId, d2: DeviceId)
    requires u1 != u2 && DeviceScopeKey(u1, d1) == DeviceScopeKey(u2, d2)
    ensures u1 + [SEPARATOR] <= u2 || u2 + [SEPARATOR] <= u1
  {
    var k := DeviceScopeKey(u1, d1);
    assert k[..|u1| + 1] == u1 + [SEPARATOR] && k[..|u2| + 1] == u2 + [SEPARATOR];
    assert k[..|u1|] == u1 && k[..|u2|] == u2;
    if |u1| < |u2| {
      assert k[..|u2|][..|u1| + 1] == k[..|u1| + 1];
    } else if |u2| < |u1| {
      assert k[..|u1|][..|u2| + 1] == k[..|u2| + 1];
    }
  }
}
