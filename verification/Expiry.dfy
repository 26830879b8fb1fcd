/** Points in time, in whole seconds, and the expiry test that all token caches share. */
module Expiry {

  /** 0 is Go's zero time: not set. */
  type Time = nat

  const UNSET: Time := 0

  /** `expiresAt` is more than `margin` away.  A token without expiry passes unless one is required. */
  predicate IsNotExpired(now: Time, expiresAt: Time, margin: nat, required: bool) {
    if expiresAt == UNSET then !required else now + margin < expiresAt
  }

  /** Ten seconds. */
  const MARGIN: nat := 10

  /** A cached access token can be handed out: it is there, and good for ten seconds more. */
  predicate StillGood(present: bool, expiresAt: Time, now: Time) {
    present && IsNotExpired(now, expiresAt, MARGIN, false)
  }

  /** The margin left to a token that passes, in plain numbers. */
  lemma PassesExactly(now: Time, expiresAt: Time, margin: nat, required: bool)
    ensures IsNotExpired(now, expiresAt, margin, required) <==> (expiresAt == 0 && !required) || (expiresAt != 0 && now + margin < expiresAt)
    ensures StillGood(true, expiresAt, now) <==> expiresAt == 0 || now + 10 < expiresAt
  {
  }
}
