/**
 * Account recovery codes. Rotation asks the token service for sixteen random bytes, which that
 * service refuses, so rotation fails before its transaction and no code ever exists.
 */
module RecoveryCodes {
  import opened Common

  datatype Code = Code(userId: Id, usedAt: Option<Time>, revokedAt: Option<Time>)

  /** The token service's bounds on the number of random bytes. */
  predicate Generates(bytes: int) { 32 <= bytes <= 64 }

  const CODE_BYTES := 16

  predicate Unspent(c: Code) { c.usedAt == None && c.revokedAt == None }

  function LiveCodes(codes: map<Id, Code>, userId: Id): set<Id> {
    set c | c in codes && codes[c].userId == userId && Unspent(codes[c])
  }

  datatype Op = Rotate(userId: Id, count: nat, now: Time) | Consume(userId: Id, code: Id, now: Time)

  class PasskeyService {
    var codes: map<Id, Code>
    var nextId: Id

    constructor ()
      ensures codes == map[] && nextId == 0
    {
      codes, nextId := map[], 0;
    }

    /**
     * Rotation for a given size of code. Where the token service accepts the size, the user ends
     * with exactly the new codes live; otherwise any positive count fails and nothing changes.
     */
    method RotateWith(userId: Id, count: nat, bytes: int, now: Time) returns (created: Option<set<Id>>)
      requires forall c :: c in codes ==> c < nextId
      modifies this
      ensures created.None? <==> 0 < count && !Generates(bytes)
      ensures created.None? ==> codes == old(codes) && nextId == old(nextId)
      ensures created.Some? ==> LiveCodes(codes, userId) == created.value && |created.value| == count
      ensures created.Some? ==> forall c :: c in old(codes) ==>
              c in codes && (old(codes)[c].userId != userId ==> codes[c] == old(codes)[c])
      ensures forall c :: c in codes ==> c < nextId
    {
      var generated := 0;
      while generated < count
        invariant 0 <= generated <= count
        invariant generated > 0 ==> Generates(bytes)
      {
        if !Generates(bytes) { return None; }
        generated := generated + 1;
      }
      codes := map c | c in codes ::
        if codes[c].userId == userId && Unspent(codes[c]) then codes[c].(revokedAt := Some(now)) else codes[c];
      var added := Interval(nextId, count);
      codes := codes + map c | c in added :: Code(userId, None, None);
      nextId := nextId + count;
      assert LiveCodes(codes, userId) == added;
      return Some(added);
    }

    method RotateRecoveryCodes(userId: Id, count: nat, now: Time) returns (created: Option<set<Id>>)
      requires forall c :: c in codes ==> c < nextId
      modifies this
      ensures 0 < count ==> created == None && codes == old(codes) && nextId == old(nextId)
      ensures forall c :: c in codes ==> c < nextId
    {
      created := RotateWith(userId, count, CODE_BYTES, now);
    }

    /** A code is spent by one guarded update; the caller then receives a reset token. */
    method ConsumeRecoveryCode(userId: Id, code: Id, now: Time) returns (accepted: bool)
      modifies this`codes
      ensures accepted <==> code in LiveCodes(old(codes), userId)
      ensures codes == if accepted then old(codes)[code := old(codes)[code].(usedAt := Some(now))] else old(codes)
      ensures code !in LiveCodes(codes, userId)
    {
      accepted := code in codes && codes[code].userId == userId && Unspent(codes[code]);
      if accepted {
        codes := codes[code := codes[code].(usedAt := Some(now))];
      }
    }

    /** With any configured number of codes, no sequence of rotations and consumptions ever accepts one. */
    method AnyUse(ops: seq<Op>) returns (accepted: bool)
      requires codes == map[]
      requires forall op :: op in ops && op.Rotate? ==> 6 <= op.count <= 12
      modifies this
      ensures !accepted && codes == map[]
    {
      accepted := false;
      for i := 0 to |ops|
        invariant !accepted && codes == map[]
      {
        match ops[i] {
          case Rotate(userId, count, now) =>
            var created := RotateRecoveryCodes(userId, count, now);
          case Consume(userId, code, now) =>
            var ok := ConsumeRecoveryCode(userId, code, now);
            accepted := accepted || ok;
        }
      }
    }
  }

  function Interval(from: Id, count: nat): (keys: set<Id>)
    ensures |keys| == count
    ensures forall k :: k in keys <==> from <= k < from + count
  {
    if count == 0 then {} else Interval(from, count - 1) + {from + count - 1}
  }
}
