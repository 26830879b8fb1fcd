/** What a client and an authorisation server do to a rotating refresh token (section 6 of
    RFC 6749): the server issues a new token with an answer, and the client stores it or not. */
module RefreshTokens {

  /** Tokens in the order the server issues them; 0 is the empty string. */
  type Token = nat

  const NO_TOKEN: Token := 0

  /** The four clients.  They differ only in what they do with the refresh token of an answer. */
  datatype Mode =
    | StoreOpenID    // git proxy, not "v2": stores it if there is one
    | StoreV2        // git proxy, "v2": always stores the field, even when it is empty
    | RenkuV2        // remote session controller, "v2": likewise
    | RenkuOpenID    // remote session controller, not "v2": drops it

  /** How one request ends. */
  datatype Outcome =
    | Rejected                  // the server issued nothing
    | Lost                      // the server issued a token, the client got an error
    | Received(rotated: bool)   // the client decoded the answer; `rotated`: it holds a refresh token

  datatype Answer = Answer(carried: Token, latest: Token, outcome: Outcome)

  /** `stored`: what the client holds; `latest`: what the server issued last. */
  datatype Tokens = Tokens(stored: Token, latest: Token, answered: seq<Answer>)

  function FirstTokens(): Tokens {
    Tokens(1, 1, [])
  }

  /** What the client stores of a decoded answer. */
  function Keep(mode: Mode, stored: Token, issued: Token): Token {
    match mode
    case StoreOpenID => if issued != NO_TOKEN then issued else stored
    case StoreV2 => issued
    case RenkuV2 => issued
    case RenkuOpenID => stored
  }

  /** The server handles a request that carries `carried`. */
  function Answered(mode: Mode, t: Tokens, carried: Token, o: Outcome): Tokens {
    var log := t.answered + [Answer(carried, t.latest, o)];
    var issued := t.latest + 1;
    match o
    case Rejected => t.(answered := log)
    case Lost => Tokens(t.stored, issued, log)
    case Received(rotated) =>
      if rotated then Tokens(Keep(mode, t.stored, issued), issued, log)
      else Tokens(Keep(mode, t.stored, NO_TOKEN), t.latest, log)
  }

  function OutcomesOf(answered: seq<Answer>): (os: seq<Outcome>)
    ensures |os| == |answered|
    ensures forall i :: 0 <= i < |os| ==> os[i] == answered[i].outcome
  {
    seq(|answered|, i requires 0 <= i < |answered| => answered[i].outcome)
  }

  /** This outcome leaves the client without the server's latest token: the answer was lost, or it
      held no token and the field is stored blindly, or it held one and that is dropped. */
  predicate Breaks(mode: Mode, o: Outcome) {
    match o
    case Rejected => false
    case Lost => true
    case Received(rotated) => if rotated then mode == RenkuOpenID else mode == StoreV2 || mode == RenkuV2
  }

  /** This outcome hands the client the latest token whatever it held before. */
  predicate Mends(mode: Mode, o: Outcome) {
    o == Received(true) && mode != RenkuOpenID
  }

  ghost predicate MendedAfter(mode: Mode, os: seq<Outcome>, i: nat) {
    exists j :: i < j < |os| && Mends(mode, os[j])
  }

  /** Every breaking outcome has been followed by a mending one. */
  ghost predicate InStep(mode: Mode, os: seq<Outcome>) {
    forall i :: 0 <= i < |os| && Breaks(mode, os[i]) ==> MendedAfter(mode, os, i)
  }

  /** What one more outcome does to being in step. */
  lemma InStepAfter(mode: Mode, os: seq<Outcome>, o: Outcome)
    ensures InStep(mode, os + [o]) <==> Mends(mode, o) || (InStep(mode, os) && !Breaks(mode, o))
  {
    var os' := os + [o];
    if Mends(mode, o) {
      assert Mends(mode, os'[|os|]);
    } else {
      assert Breaks(mode, os'[|os|]) ==> !MendedAfter(mode, os', |os|);
      forall i | 0 <= i < |os|
        ensures MendedAfter(mode, os', i) <==> MendedAfter(mode, os, i)
      {
        if j :| i < j < |os| && Mends(mode, os[j]) {
          assert Mends(mode, os'[j]);
        }
      }
      assert forall i :: 0 <= i < |os| ==> os'[i] == os[i];
    }
  }

  /** The client that drops tokens cannot be mended: it is in step only as long as none is issued. */
  lemma InStepWithoutStoring(os: seq<Outcome>)
    ensures InStep(RenkuOpenID, os) <==> forall i :: 0 <= i < |os| ==> os[i] != Lost && os[i] != Received(true)
  {
    forall i | 0 <= i < |os|
      ensures Breaks(RenkuOpenID, os[i]) <==> os[i] == Lost || os[i] == Received(true)
      ensures !MendedAfter(RenkuOpenID, os, i)
    {
    }
  }

  /** Each request carried the latest token exactly when the outcomes before left the client in step. */
  ghost predicate Accounted(mode: Mode, answered: seq<Answer>) {
    forall r {:trigger answered[r]} :: 0 <= r < |answered| ==>
      (answered[r].carried == answered[r].latest <==> InStep(mode, OutcomesOf(answered[..r])))
  }

  ghost predicate Consistent(mode: Mode, t: Tokens) {
    && 0 < t.latest
    && t.stored <= t.latest
    && (t.stored == t.latest <==> InStep(mode, OutcomesOf(t.answered)))
    && Accounted(mode, t.answered)
  }

  lemma FirstTokensConsistent(mode: Mode)
    ensures Consistent(mode, FirstTokens())
  {
  }

  lemma AccountedAfter(mode: Mode, answered: seq<Answer>, a: Answer)
    requires Accounted(mode, answered)
    requires a.carried == a.latest <==> InStep(mode, OutcomesOf(answered))
    ensures Accounted(mode, answered + [a])
  {
    var answered' := answered + [a];
    forall r | 0 <= r < |answered'|
      ensures answered'[r].carried == answered'[r].latest <==> InStep(mode, OutcomesOf(answered'[..r]))
    {
      assert answered'[..r] == answered[..r];
      if r == |answered| {
        assert answered[..r] == answered;
      }
    }
  }

  /** An answer to a request that carried the stored token keeps the books straight. */
  lemma AnsweredKeepsConsistent(mode: Mode, t: Tokens, o: Outcome)
    requires Consistent(mode, t)
    ensures Consistent(mode, Answered(mode, t, t.stored, o))
  {
    var a := Answer(t.stored, t.latest, o);
    AccountedAfter(mode, t.answered, a);
    assert OutcomesOf(t.answered + [a]) == OutcomesOf(t.answered) + [o];
    InStepAfter(mode, OutcomesOf(t.answered), o);
  }

  /** With no answer lost on the way, and a refresh token in every decoded answer where the client
      stores the field blindly, three of the four clients never present a superseded token. */
  lemma StaysInStep(mode: Mode, os: seq<Outcome>)
    requires mode != RenkuOpenID
    requires forall i :: 0 <= i < |os| ==> os[i] != Lost
    requires mode != StoreOpenID ==> forall i :: 0 <= i < |os| ==> os[i] != Received(false)
    ensures InStep(mode, os)
  {
    forall i | 0 <= i < |os|
      ensures !Breaks(mode, os[i])
    {
    }
  }
}
