/** The internal secret of a session: generated afresh by every reconcile, yet the tunnel secret in it
    must outlive the pods that were started with it. */
module TunnelSecret {
  import opened Children
  import opened Session
  import opened Wrappers

  type Entries = map<string, string>

  const TUNNEL := "WSTUNNEL_SECRET"
  const PROXY_CONFIG := "oauth2-proxy-config.yaml"
  const PROXY_ALPHA_CONFIG := "oauth2-proxy-alpha-config.yaml"

  /** The configuration of the authentication proxy; it has a random part of its own. */
  datatype Proxy = Proxy(config: string, alphaConfig: string)

  /** What the secret is generated from.  `drawn` is the random tunnel secret of this reconcile. */
  datatype Wish = Wish(meta: Meta, remote: bool, oidc: Option<Proxy>, drawn: string)

  /** An object on its way to the API server: entries in `stringData` have not been stored yet. */
  datatype Manifest = Manifest(meta: Meta, data: Entries, stringData: Entries)

  datatype Secret = Secret(meta: Meta, data: Entries)

  /** The API server merges `stringData` into `data` and keeps nothing else of it. */
  function Stored(m: Manifest): Secret {
    Secret(m.meta, m.data + m.stringData)
  }

  function StringDataOf(w: Wish): Entries {
    var proxy := if w.oidc.Some? then map[PROXY_ALPHA_CONFIG := w.oidc.value.alphaConfig, PROXY_CONFIG := w.oidc.value.config]
                 else map[];
    if w.remote && w.drawn != "" then proxy[TUNNEL := w.drawn] else proxy
  }

  method DesiredSecret(w: Wish) returns (m: Manifest)
    ensures m == Manifest(w.meta, map[], StringDataOf(w))
  {
    m := Manifest(w.meta, map[], map[]);
    var tunnel := if w.remote then w.drawn else "";
    if w.oidc.None? {
      if tunnel != "" {
        m := m.(stringData := map[TUNNEL := tunnel]);
      }
      return;
    }
    m := m.(stringData := map[PROXY_ALPHA_CONFIG := w.oidc.value.alphaConfig, PROXY_CONFIG := w.oidc.value.config]);
    if tunnel != "" {
      m := m.(stringData := m.stringData[TUNNEL := tunnel]);
    }
  }

  // ---------------------------------------------------------------- one reconcile

  datatype Event =
    | Reconcile(wish: Wish, strategy: Strategy, state: State, delivered: bool)
    | Remove

  /** The entries that an update writes. */
  function Kept(current: Entries, wish: Entries): Entries {
    if TUNNEL in current then wish[TUNNEL := current[TUNNEL]] else wish
  }

  function Next(stored: Option<Secret>, e: Event): Option<Secret> {
    match e
    case Remove => None
    case Reconcile(w, strategy, state, delivered) =>
      if !delivered then stored
      else if stored.None? then Some(Secret(w.meta, StringDataOf(w)))
      else if !Applies(strategy, state) then stored
      else Some(Secret(CleanMeta(stored.value.meta, w.meta), Kept(stored.value.data, StringDataOf(w))))
  }

  /** Labels and annotations, and when nothing is written at all. */
  lemma WritesExactly(stored: Option<Secret>, w: Wish, strategy: Strategy, state: State, delivered: bool)
    ensures var after := Next(stored, Reconcile(w, strategy, state, delivered));
            && (!delivered ==> after == stored)
            && (delivered && stored.None? ==> after.Some? && after.value.meta == w.meta)
            && (stored.Some? && strategy != Always && (strategy == WhenFailedOrHibernated ==> state != Failed && state != Hibernated) ==>
                  after == stored)
            && (delivered && stored.Some? && strategy == Always ==>
                  after.Some? && after.value.meta == CleanMeta(stored.value.meta, w.meta))
  {
  }

  /** The secret as it is in the cluster. */
  class InternalSecret {
    var stored: Option<Secret>

    constructor ()
      ensures stored == None
    {
      stored := None;
    }

    /** `delivered`: no call to the API server fails. */
    method Reconcile(wish: Wish, strategy: Strategy, state: State, delivered: bool) returns (ok: bool)
      modifies this
      ensures stored == Next(old(stored), Event.Reconcile(wish, strategy, state, delivered))
      ensures ok <==> (if old(stored).Some? && !Applies(strategy, state) then strategy != Unknown else delivered)
    {
      var desired := DesiredSecret(wish);
      if stored.None? {
        if delivered {
          assert desired.data + desired.stringData == StringDataOf(wish);
          stored := Some(Stored(desired));
        }
        return delivered;
      }
      var current := Manifest(stored.value.meta, stored.value.data, map[]);
      match strategy {
        case Never =>
          return true;
        case Unknown =>
          return false;
        case WhenFailedOrHibernated =>
          if state != Failed && state != Hibernated {
            return true;
          }
        case Always =>
      }
      var preserved := CopyInto(map[], desired.stringData);
      if TUNNEL in current.data {
        preserved := preserved[TUNNEL := current.data[TUNNEL]];
      }
      current := current.(data := desired.data);
      current := current.(stringData := preserved);
      var meta := UpdateMeta(current.meta, desired.meta);
      current := current.(meta := meta);
      if delivered {
        assert current.data + current.stringData == Kept(stored.value.data, StringDataOf(wish));
        stored := Some(Stored(current));
      }
      return delivered;
    }
  }

  // ---------------------------------------------------------------- runs

  ghost predicate Run(events: seq<Event>, run: seq<Option<Secret>>) {
    && |run| == |events| + 1
    && run[0] == None
    && forall i {:trigger events[i]} :: 0 <= i < |events| ==> run[i + 1] == Next(run[i], events[i])
  }

  /** The secret is not removed in this part of the run. */
  predicate Undisturbed(events: seq<Event>, i: nat, j: nat) {
    forall k :: i <= k < j && k < |events| ==> events[k].Reconcile?
  }

  predicate HasTunnel(s: Option<Secret>, value: string) {
    s.Some? && TUNNEL in s.value.data && s.value.data[TUNNEL] == value
  }

  /** Once stored, the tunnel secret stays what it is, through any wishes, strategies and failures. */
  lemma {:induction false} TunnelNeverRotates(events: seq<Event>, run: seq<Option<Secret>>, i: nat, j: nat, value: string)
    requires Run(events, run) && i <= j < |run| && Undisturbed(events, i, j)
    requires HasTunnel(run[i], value)
    ensures HasTunnel(run[j], value)
  {
    if i < j {
      TunnelNeverRotates(events, run, i, j - 1, value);
      assert run[j - 1 + 1] == Next(run[j - 1], events[j - 1]);
      assert events[j - 1].Reconcile?;
    }
  }

  /** A reconcile wrote the secret with these wishes. */
  predicate Wrote(run: seq<Option<Secret>>, events: seq<Event>, k: nat) {
    && k < |events| && k < |run| && events[k].Reconcile? && events[k].delivered
    && (run[k].None? || Applies(events[k].strategy, events[k].state))
  }

  /** The tunnel secret in the cluster is the one drawn by the first reconcile that wrote the secret
      of a remote session since the secret was last absent; there is none if there was no such
      reconcile. */
  lemma {:induction false} TunnelIsFirstWritten(events: seq<Event>, run: seq<Option<Secret>>, i: nat, j: nat)
    returns (first: Option<nat>)
    requires Run(events, run) && i <= j < |run| && run[i] == None && Undisturbed(events, i, j)
    requires forall k :: i <= k < j ==> events[k].wish.drawn != ""
    ensures forall k :: i <= k < j && Wrote(run, events, k) && events[k].wish.remote ==> first.Some? && first.value <= k
    ensures first.Some? ==> i <= first.value < j && Wrote(run, events, first.value) && events[first.value].wish.remote
    ensures match first
            case Some(k) => HasTunnel(run[j], events[k].wish.drawn)
            case None => run[j].Some? ==> TUNNEL !in run[j].value.data
  {
    first := None;
    if i < j {
      first := TunnelIsFirstWritten(events, run, i, j - 1);
      var last := events[j - 1];
      assert run[j - 1 + 1] == Next(run[j - 1], last);
      if first.None? && Wrote(run, events, j - 1) && last.wish.remote {
        first := Some(j - 1);
      }
    }
  }

  /** Everything else in the secret follows the latest write: nothing stale is left in it. */
  lemma RestFollowsWish(stored: Option<Secret>, w: Wish, strategy: Strategy, state: State, key: string)
    requires key != TUNNEL && (stored.None? || Applies(strategy, state))
    ensures var after := Next(stored, Reconcile(w, strategy, state, true)).value.data;
            && (key in after <==> w.oidc.Some? && (key == PROXY_CONFIG || key == PROXY_ALPHA_CONFIG))
            && (key in after ==> after[key] == if key == PROXY_CONFIG then w.oidc.value.config else w.oidc.value.alphaConfig)
  {
    assert PROXY_CONFIG[13] != PROXY_ALPHA_CONFIG[13];
  }
}
