/** The relay's registry of dynamic topic subscriptions: who asked for which topic, both ways. */
module TopicRegistry {
  type Topic = string
  type Peer = nat

  // ---------------------------------------------------------------- policy

  datatype Reason = AlreadyTracked | SystemTopic | NotInAllowlist | CapReached | PeerCapReached | NoReason
  datatype Allowlist = AnyTopic | Only(entries: seq<string>)

  predicate StartsWith(topic: Topic, prefix: string) { |prefix| <= |topic| && topic[..|prefix|] == prefix }

  /** An entry ending in a slash allows everything below it, any other entry only itself. */
  predicate Matches(entry: string, topic: Topic) {
    if |entry| > 0 && entry[|entry| - 1] == '/' then StartsWith(topic, entry) else topic == entry
  }

  predicate IsSystem(topic: Topic) { StartsWith(topic, "_") || StartsWith(topic, "floodsub:") }

  predicate Allowed(allowlist: Allowlist, topic: Topic) {
    allowlist.Only? ==> exists i :: 0 <= i < |allowlist.entries| && Matches(allowlist.entries[i], topic)
  }

  datatype Decision = Subscribe | Skip(reason: Reason)

  function ShouldAutoSubscribe(topic: Topic, tracked: bool, allowlist: Allowlist, count: nat, maximum: nat): Decision {
    if tracked then Skip(AlreadyTracked)
    else if IsSystem(topic) then Skip(SystemTopic)
    else if !Allowed(allowlist, topic) then Skip(NotInAllowlist)
    else if count >= maximum then Skip(CapReached)
    else Subscribe
  }

  // ---------------------------------------------------------------- actions

  datatype Action = SubscribeTo(topic: Topic) | UnsubscribeFrom(topic: Topic) | Ignore(topic: Topic, reason: Reason)

  function Perform(subscribed: set<Topic>, a: Action): set<Topic> {
    match a
    case SubscribeTo(t) => subscribed + {t}
    case UnsubscribeFrom(t) => subscribed - {t}
    case Ignore(_, _) => subscribed
  }

  function PerformAll(subscribed: set<Topic>, actions: seq<Action>): set<Topic> {
    if actions == [] then subscribed
    else Perform(PerformAll(subscribed, actions[..|actions| - 1]), actions[|actions| - 1])
  }

  lemma PerformAppend(subscribed: set<Topic>, actions: seq<Action>, a: Action)
    ensures PerformAll(subscribed, actions + [a]) == Perform(PerformAll(subscribed, actions), a)
  {
    assert (actions + [a])[..|actions|] == actions;
  }

  // ---------------------------------------------------------------- the two maps

  function At<K, V>(m: map<K, set<V>>, k: K): set<V> { if k in m then m[k] else {} }

  /** Keep a set under a key, or drop the key when the set is empty. */
  function Put<K, V>(m: map<K, set<V>>, k: K, s: set<V>): map<K, set<V>> { if s == {} then m - {k} else m[k := s] }

  predicate NoEmpty<K, V>(m: map<K, set<V>>) { forall k :: k in m ==> m[k] != {} }

  datatype Tables = Tables(topicPeers: map<Topic, set<Peer>>, peerTopics: map<Peer, set<Topic>>)
  datatype Config = Config(permanent: set<Topic>, allowlist: Allowlist, maxTopics: nat, maxPerPeer: nat)

  predicate Linked(x: Tables, p: Peer, t: Topic) { p in At(x.topicPeers, t) }

  /** The two maps say the same, and neither holds an empty set. */
  ghost predicate Exact(x: Tables) {
    && NoEmpty(x.topicPeers) && NoEmpty(x.peerTopics)
    && forall p: Peer, t: Topic :: p in At(x.topicPeers, t) <==> t in At(x.peerTopics, p)
  }

  /** Internal topics begin with an underscore or with "floodsub:". */
  predicate Internal(t: Topic) { "_" <= t || "floodsub:" <= t }

  /** The list names the topic, or a namespace ending in a slash that the topic lies in. */
  predicate Named(allowlist: Allowlist, t: Topic) {
    allowlist.AnyTopic? || exists e :: e in allowlist.entries && (t == e || (e <= t && e != "" && e[|e| - 1] == '/'))
  }

  predicate MayTrack(c: Config, t: Topic) { t !in c.permanent && !Internal(t) && Named(c.allowlist, t) }

  lemma NamedIff(allowlist: Allowlist, t: Topic)
    ensures Allowed(allowlist, t) <==> Named(allowlist, t)
    ensures IsSystem(t) <==> Internal(t)
  {
    if allowlist.Only? {
      if Allowed(allowlist, t) {
        var i :| 0 <= i < |allowlist.entries| && Matches(allowlist.entries[i], t);
        assert allowlist.entries[i] in allowlist.entries;
      }
      if Named(allowlist, t) {
        var e :| e in allowlist.entries && (t == e || (e <= t && e != "" && e[|e| - 1] == '/'));
        var i :| 0 <= i < |allowlist.entries| && allowlist.entries[i] == e;
        assert Matches(allowlist.entries[i], t);
      }
    }
  }

  /** The policy subscribes exactly to a topic that is not tracked, not internal, named by the allowlist
      and within the cap, and otherwise gives the first reason that applies. */
  lemma DecisionIs(topic: Topic, tracked: bool, allowlist: Allowlist, count: nat, maximum: nat)
    ensures var d := ShouldAutoSubscribe(topic, tracked, allowlist, count, maximum);
      && (d == Subscribe <==> !tracked && !Internal(topic) && Named(allowlist, topic) && count < maximum)
      && (d == Skip(AlreadyTracked) <==> tracked)
      && (d == Skip(SystemTopic) <==> !tracked && Internal(topic))
      && (d == Skip(NotInAllowlist) <==> !tracked && !Internal(topic) && !Named(allowlist, topic))
      && (d == Skip(CapReached) <==> !tracked && !Internal(topic) && Named(allowlist, topic) && maximum <= count)
  {
    NamedIff(allowlist, topic);
  }

  /** What a peer that asks for a topic is told. */
  function Answer(c: Config, x: Tables, p: Peer, t: Topic): Action {
    var hasRoom := |At(x.peerTopics, p)| < c.maxPerPeer;
    if p in At(x.topicPeers, t) || (t in x.topicPeers && hasRoom) || (t !in x.topicPeers && t in c.permanent) then Ignore(t, AlreadyTracked)
    else if t !in x.topicPeers && Internal(t) then Ignore(t, SystemTopic)
    else if t !in x.topicPeers && !Named(c.allowlist, t) then Ignore(t, NotInAllowlist)
    else if t !in x.topicPeers && c.maxTopics <= |x.topicPeers| then Ignore(t, CapReached)
    else if !hasRoom then Ignore(t, PeerCapReached)
    else SubscribeTo(t)
  }

  ghost predicate Capped(c: Config, x: Tables) {
    && |x.topicPeers| <= c.maxTopics
    && (forall p: Peer :: |At(x.peerTopics, p)| <= c.maxPerPeer)
    && forall t :: t in x.topicPeers ==> MayTrack(c, t)
  }

  ghost predicate Ok(c: Config, x: Tables) { Exact(x) && Capped(c, x) }

  function RemoveLink(x: Tables, p: Peer, t: Topic): Tables {
    if !Linked(x, p, t) then x
    else Tables(Put(x.topicPeers, t, At(x.topicPeers, t) - {p}), Put(x.peerTopics, p, At(x.peerTopics, p) - {t}))
  }

  function AddLink(x: Tables, p: Peer, t: Topic): Tables {
    Tables(x.topicPeers[t := At(x.topicPeers, t) + {p}], x.peerTopics[p := At(x.peerTopics, p) + {t}])
  }

  /** `y` is `x` with the topic's peers replaced. */
  ghost predicate Replaced(x: Tables, t: Topic, actual: set<Peer>, y: Tables) {
    && y.topicPeers == Put(x.topicPeers, t, actual)
    && NoEmpty(y.peerTopics)
    && forall p: Peer :: At(y.peerTopics, p)
         == At(x.peerTopics, p) - (if Linked(x, p, t) then {t} else {}) + (if p in actual then {t} else {})
  }

  /** The links of `before` without those of one peer to topics outside `left`. */
  ghost predicate Without(after: Tables, before: Tables, p: Peer, left: set<Topic>) {
    forall q: Peer, u: Topic :: Linked(after, q, u) <==> Linked(before, q, u) && !(q == p && u !in left)
  }

  // ---------------------------------------------------------------- what each change does

  lemma PutAt<K, V>(m: map<K, set<V>>, k: K, s: set<V>)
    requires NoEmpty(m)
    ensures NoEmpty(Put(m, k, s))
    ensures forall j :: At(Put(m, k, s), j) == if j == k then s else At(m, j)
  {}

  lemma PutKeys<K, V>(m: map<K, set<V>>, k: K, s: set<V>)
    ensures Put(m, k, s).Keys == if s == {} then m.Keys - {k} else m.Keys + {k}
    ensures |Put(m, k, s)| <= if s == {} || k in m then |m| else |m| + 1
  {
    var after := Put(m, k, s);
    assert after.Keys == if s == {} then m.Keys - {k} else m.Keys + {k};
    assert |after| == |after.Keys| && |m| == |m.Keys|;
    if k in m { assert m.Keys + {k} == m.Keys; }
  }

  lemma RemoveIsExact(x: Tables, p: Peer, t: Topic)
    requires Exact(x)
    ensures Exact(RemoveLink(x, p, t))
    ensures forall q: Peer, u: Topic :: Linked(RemoveLink(x, p, t), q, u) <==> Linked(x, q, u) && !(q == p && u == t)
  {
    PutAt(x.topicPeers, t, At(x.topicPeers, t) - {p});
    PutAt(x.peerTopics, p, At(x.peerTopics, p) - {t});
  }

  lemma RemoveIsCapped(c: Config, x: Tables, p: Peer, t: Topic)
    requires Ok(c, x)
    ensures Capped(c, RemoveLink(x, p, t))
    ensures RemoveLink(x, p, t).topicPeers.Keys == if At(x.topicPeers, t) == {p} then x.topicPeers.Keys - {t} else x.topicPeers.Keys
  {
    if Linked(x, p, t) {
      var peers, topics := At(x.topicPeers, t) - {p}, At(x.peerTopics, p) - {t};
      PutKeys(x.topicPeers, t, peers);
      PutAt(x.peerTopics, p, topics);
      assert At(x.topicPeers, t) == peers + {p};
      assert |topics| <= |At(x.peerTopics, p)|;
    }
  }

  lemma AddIsExact(x: Tables, p: Peer, t: Topic)
    requires Exact(x)
    ensures Exact(AddLink(x, p, t))
    ensures forall q: Peer, u: Topic :: Linked(AddLink(x, p, t), q, u) <==> Linked(x, q, u) || (q == p && u == t)
  {
    PutAt(x.topicPeers, t, At(x.topicPeers, t) + {p});
    PutAt(x.peerTopics, p, At(x.peerTopics, p) + {t});
  }

  lemma AddIsCapped(c: Config, x: Tables, p: Peer, t: Topic)
    requires Capped(c, x) && NoEmpty(x.peerTopics) && MayTrack(c, t)
    requires |At(x.peerTopics, p)| < c.maxPerPeer && (t !in x.topicPeers ==> |x.topicPeers| < c.maxTopics)
    ensures Capped(c, AddLink(x, p, t)) && AddLink(x, p, t).topicPeers.Keys == x.topicPeers.Keys + {t}
  {
    PutKeys(x.topicPeers, t, At(x.topicPeers, t) + {p});
    var topics := At(x.peerTopics, p) + {t};
    PutAt(x.peerTopics, p, topics);
    assert |topics| <= c.maxPerPeer by { GrowByOne(At(x.peerTopics, p), t); }
  }

  lemma GrowByOne<T>(s: set<T>, e: T)
    ensures |s + {e}| <= |s| + 1
  {
    if e in s { assert s + {e} == s; }
  }

  lemma ReplaceIsExact(x: Tables, t: Topic, actual: set<Peer>, y: Tables)
    requires Exact(x) && Replaced(x, t, actual, y)
    ensures Exact(y)
    ensures forall q: Peer, u: Topic :: Linked(y, q, u) <==> if u == t then q in actual else Linked(x, q, u)
  {
    PutAt(x.topicPeers, t, actual);
  }

  lemma ReplaceIsCapped(c: Config, x: Tables, t: Topic, actual: set<Peer>, y: Tables)
    requires Ok(c, x) && t in x.topicPeers && Replaced(x, t, actual, y)
    requires forall p :: p in actual ==> Linked(x, p, t) || |At(x.peerTopics, p)| < c.maxPerPeer
    ensures Capped(c, y) && y.topicPeers.Keys == if actual == {} then x.topicPeers.Keys - {t} else x.topicPeers.Keys
  {
    PutKeys(x.topicPeers, t, actual);
    forall p: Peer ensures |At(y.peerTopics, p)| <= c.maxPerPeer {
      ReconciledCap(At(x.peerTopics, p), t, Linked(x, p, t), p in actual, c.maxPerPeer);
    }
  }

  lemma ReconciledCap(topics: set<Topic>, t: Topic, had: bool, has: bool, cap: nat)
    requires |topics| <= cap && (had <==> t in topics) && (has ==> had || |topics| < cap)
    ensures |topics - (if had then {t} else {}) + (if has then {t} else {})| <= cap
  {
    if had {
      assert topics == (topics - {t}) + {t};
      assert |topics - {t}| == |topics| - 1;
    }
  }

  // ---------------------------------------------------------------- the object

  /** When a new link is taken: the peer has room, and the topic is tracked already or may be. */
  predicate Accepts(c: Config, x: Tables, p: Peer, t: Topic) {
    |At(x.peerTopics, p)| < c.maxPerPeer && (t in x.topicPeers || (MayTrack(c, t) && |x.topicPeers| < c.maxTopics))
  }

  class Registry {
    const config: Config
    var topicPeers: map<Topic, set<Peer>>
    var peerTopics: map<Peer, set<Topic>>

    ghost function State(): Tables
      reads this
    {
      Tables(topicPeers, peerTopics)
    }

    ghost predicate Valid()
      reads this
    {
      Ok(config, State())
    }

    constructor (config: Config)
      ensures Valid() && this.config == config && topicPeers == map[] && peerTopics == map[]
    {
      this.config, topicPeers, peerTopics := config, map[], map[];
    }

    /** Drop one link from both maps; the last peer takes the topic with it. */
    method RemovePeerFromTopic(p: Peer, t: Topic) returns (a: Action)
      requires Valid()
      modifies this
      ensures Valid() && State() == RemoveLink(old(State()), p, t)
      ensures topicPeers.Keys == Perform(old(topicPeers.Keys), a)
      ensures a == if old(At(topicPeers, t)) == {p} then UnsubscribeFrom(t) else Ignore(t, NoReason)
    {
      RemoveIsExact(State(), p, t);
      RemoveIsCapped(config, State(), p, t);
      if t !in topicPeers || p !in topicPeers[t] { return Ignore(t, NoReason); }
      var peers := topicPeers[t] - {p};
      assert topicPeers[t] == peers + {p};
      peerTopics := Put(peerTopics, p, At(peerTopics, p) - {t});
      topicPeers := Put(topicPeers, t, peers);
      a := if peers == {} then UnsubscribeFrom(t) else Ignore(t, NoReason);
    }

    /** Add one link to both maps. */
    method RecordPeerTopic(p: Peer, t: Topic)
      requires Valid() && Accepts(config, State(), p, t)
      modifies this
      ensures Valid() && State() == AddLink(old(State()), p, t)
      ensures topicPeers.Keys == old(topicPeers.Keys) + {t}
    {
      AddIsExact(State(), p, t);
      AddIsCapped(config, State(), p, t);
      topicPeers := topicPeers[t := At(topicPeers, t) + {p}];
      peerTopics := peerTopics[p := At(peerTopics, p) + {t}];
    }

    /** A peer asks for a topic that is tracked. */
    method AskTracked(p: Peer, t: Topic) returns (a: Action)
      requires Valid() && t in topicPeers
      modifies this
      ensures Valid() && topicPeers.Keys == old(topicPeers.Keys) && a == Answer(config, old(State()), p, t)
      ensures State() == if |old(At(peerTopics, p))| < config.maxPerPeer && !Linked(old(State()), p, t)
                         then AddLink(old(State()), p, t) else old(State())
    {
      if p in topicPeers[t] { return Ignore(t, AlreadyTracked); }
      if |At(peerTopics, p)| >= config.maxPerPeer { return Ignore(t, PeerCapReached); }
      RecordPeerTopic(p, t);
      a := Ignore(t, AlreadyTracked);
    }

    /** A peer asks for a topic that is not. */
    method AskNew(p: Peer, t: Topic) returns (a: Action)
      requires Valid() && t !in topicPeers
      modifies this
      ensures Valid() && a == Answer(config, old(State()), p, t) && topicPeers.Keys == Perform(old(topicPeers.Keys), a)
      ensures State() == if a.SubscribeTo? then AddLink(old(State()), p, t) else old(State())
    {
      DecisionIs(t, t in config.permanent, config.allowlist, |topicPeers|, config.maxTopics);
      var decision := ShouldAutoSubscribe(t, t in config.permanent, config.allowlist, |topicPeers|, config.maxTopics);
      if decision.Skip? { return Ignore(t, decision.reason); }
      if |At(peerTopics, p)| >= config.maxPerPeer { return Ignore(t, PeerCapReached); }
      RecordPeerTopic(p, t);
      a := SubscribeTo(t);
    }

    /** A peer's subscription changed: a link is taken exactly while the peer has room and the topic is
        tracked already or may be, and the peer is told why not otherwise. */
    method SubscriptionChanged(p: Peer, t: Topic, subscribe: bool) returns (a: Action)
      requires Valid()
      modifies this
      ensures Valid() && topicPeers.Keys == Perform(old(topicPeers.Keys), a)
      ensures !subscribe ==> State() == RemoveLink(old(State()), p, t)
      ensures subscribe ==>
                State() == if Accepts(config, old(State()), p, t) && !Linked(old(State()), p, t)
                           then AddLink(old(State()), p, t) else old(State())
      ensures subscribe ==> (a.SubscribeTo? <==> t !in old(topicPeers) && Accepts(config, old(State()), p, t))
      ensures subscribe ==> a == Answer(config, old(State()), p, t)
      ensures !subscribe ==> a == if old(At(topicPeers, t)) == {p} then UnsubscribeFrom(t) else Ignore(t, NoReason)
    {
      if !subscribe {
        a := RemovePeerFromTopic(p, t);
      } else if t in topicPeers {
        a := AskTracked(p, t);
      } else {
        a := AskNew(p, t);
      }
    }

    /** Forget everything a peer asked for; report the topics nobody else wants. */
    method PeerDisconnected(p: Peer) returns (actions: seq<Action>)
      requires Valid()
      modifies this
      ensures Valid() && Without(State(), old(State()), p, {})
      ensures topicPeers.Keys == PerformAll(old(topicPeers.Keys), actions)
      ensures forall a :: a in actions ==> a.UnsubscribeFrom? && old(At(topicPeers, a.topic)) == {p}
    {
      actions := [];
      ghost var before := State();
      var left := At(peerTopics, p);
      while left != {}
        invariant Valid() && left <= At(before.peerTopics, p) && Without(State(), before, p, left)
        invariant topicPeers.Keys == PerformAll(before.topicPeers.Keys, actions)
        invariant forall a :: a in actions ==> a.UnsubscribeFrom? && At(before.topicPeers, a.topic) == {p}
        decreases left
      {
        var t :| t in left;
        SameBefore(State(), before, p, left, t);
        RemoveIsExact(State(), p, t);
        var a := RemovePeerFromTopic(p, t);
        left := left - {t};
        if a.UnsubscribeFrom? {
          PerformAppend(before.topicPeers.Keys, actions, a);
          actions := actions + [a];
        }
      }
    }

    /** Take the topic away from every listed peer. */
    method Unlink(t: Topic, peers: set<Peer>)
      requires NoEmpty(peerTopics)
      modifies this`peerTopics
      ensures NoEmpty(peerTopics)
      ensures forall p: Peer :: At(peerTopics, p) == old(At(peerTopics, p)) - (if p in peers then {t} else {})
    {
      var left := peers;
      while left != {}
        invariant NoEmpty(peerTopics) && left <= peers
        invariant forall p: Peer :: At(peerTopics, p) == old(At(peerTopics, p)) - (if p in peers && p !in left then {t} else {})
        decreases left
      {
        var p :| p in left;
        PutAt(peerTopics, p, At(peerTopics, p) - {t});
        peerTopics := Put(peerTopics, p, At(peerTopics, p) - {t});
        left := left - {p};
      }
    }

    /** Give the topic to every listed peer. */
    method Link(t: Topic, peers: set<Peer>)
      requires NoEmpty(peerTopics)
      modifies this`peerTopics
      ensures NoEmpty(peerTopics)
      ensures forall p: Peer :: At(peerTopics, p) == old(At(peerTopics, p)) + (if p in peers then {t} else {})
    {
      var left := peers;
      while left != {}
        invariant NoEmpty(peerTopics) && left <= peers
        invariant forall p: Peer :: At(peerTopics, p) == old(At(peerTopics, p)) + (if p in peers && p !in left then {t} else {})
        decreases left
      {
        var p :| p in left;
        PutAt(peerTopics, p, At(peerTopics, p) + {t});
        peerTopics := peerTopics[p := At(peerTopics, p) + {t}];
        left := left - {p};
      }
    }

    method ReplaceTopicPeers(t: Topic, actual: set<Peer>)
      requires Valid() && t in topicPeers
      modifies this
      ensures Replaced(old(State()), t, actual, State())
    {
      var previous := topicPeers[t];
      Unlink(t, previous);
      Link(t, actual);
      topicPeers := Put(topicPeers, t, actual);
    }

    method ReconcileTracked(t: Topic, remote: set<Peer>) returns (gone: bool)
      requires Valid() && t in topicPeers
      modifies this
      ensures Valid() && Reconciles(config, old(State()), t, remote, State())
      ensures topicPeers.Keys == if gone then old(topicPeers.Keys) - {t} else old(topicPeers.Keys)
    {
      ghost var before := State();
      var actual := Reported(config, Tables(topicPeers, peerTopics), t, remote);
      ReplaceTopicPeers(t, actual);
      ReconcileIsOk(config, before, t, remote, State());
      gone := actual == {};
    }

    /** Replace a topic's peers by those the network reports, as far as they have room. */
    method ReconcileTopic(t: Topic, remote: set<Peer>) returns (a: Action)
      requires Valid()
      modifies this
      ensures Valid() && topicPeers.Keys == Perform(old(topicPeers.Keys), a)
      ensures Reconciles(config, old(State()), t, remote, State())
      ensures a.UnsubscribeFrom? <==> t in old(topicPeers) && t !in topicPeers
    {
      if t !in topicPeers { return Ignore(t, NoReason); }
      var gone := ReconcileTracked(t, remote);
      a := if gone then UnsubscribeFrom(t) else Ignore(t, NoReason);
    }
  }

  /** The reported peers that already had the topic or have room for one more. */
  function Reported(c: Config, x: Tables, t: Topic, remote: set<Peer>): set<Peer> {
    set p | p in remote && (Linked(x, p, t) || |At(x.peerTopics, p)| < c.maxPerPeer)
  }

  /** Only a tracked topic changes hands, and then exactly to the reported peers. */
  ghost predicate Reconciles(c: Config, x: Tables, t: Topic, remote: set<Peer>, y: Tables) {
    if t !in x.topicPeers then y == x
    else forall q: Peer, u: Topic :: Linked(y, q, u) <==>
           if u == t then q in remote && (Linked(x, q, t) || |At(x.peerTopics, q)| < c.maxPerPeer) else Linked(x, q, u)
  }

  lemma ReconcileIsOk(c: Config, x: Tables, t: Topic, remote: set<Peer>, y: Tables)
    requires Ok(c, x) && t in x.topicPeers && Replaced(x, t, Reported(c, x, t, remote), y)
    ensures Ok(c, y) && Reconciles(c, x, t, remote, y)
    ensures y.topicPeers.Keys == if Reported(c, x, t, remote) == {} then x.topicPeers.Keys - {t} else x.topicPeers.Keys
  {
    ReplaceIsExact(x, t, Reported(c, x, t, remote), y);
    ReplaceIsCapped(c, x, t, Reported(c, x, t, remote), y);
  }

  /** A topic the peer has not been dropped from yet still has all its peers. */
  lemma SameBefore(after: Tables, before: Tables, p: Peer, left: set<Topic>, t: Topic)
    requires Without(after, before, p, left) && t in left
    ensures At(after.topicPeers, t) == At(before.topicPeers, t)
  {
    forall q: Peer ensures q in At(after.topicPeers, t) <==> q in At(before.topicPeers, t) {
      assert Linked(after, q, t) <==> Linked(before, q, t);
    }
  }

  // ---------------------------------------------------------------- runs

  datatype Event =
    | Changed(peer: Peer, topic: Topic, subscribe: bool)
    | Disconnected(peer: Peer)
    | Reconciled(topic: Topic, remote: set<Peer>)

  /** Drive a registry through any sequence of events: at the end it is still exact, and the relay is
      subscribed to exactly the tracked topics if it followed the emitted actions. */
  method Drive(r: Registry, events: seq<Event>) returns (emitted: seq<Action>)
    requires r.Valid()
    modifies r
    ensures r.Valid() && r.topicPeers.Keys == PerformAll(old(r.topicPeers.Keys), emitted)
  {
    emitted := [];
    for i := 0 to |events|
      invariant r.Valid() && r.topicPeers.Keys == PerformAll(old(r.topicPeers.Keys), emitted)
    {
      match events[i]
      case Changed(p, t, subscribe) =>
        var a := r.SubscriptionChanged(p, t, subscribe);
        PerformAppend(old(r.topicPeers.Keys), emitted, a);
        emitted := emitted + [a];
      case Disconnected(p) =>
        var actions := r.PeerDisconnected(p);
        PerformConcat(old(r.topicPeers.Keys), emitted, actions);
        emitted := emitted + actions;
      case Reconciled(t, remote) =>
        var a := r.ReconcileTopic(t, remote);
        PerformAppend(old(r.topicPeers.Keys), emitted, a);
        emitted := emitted + [a];
    }
  }

  lemma {:induction false} PerformConcat(subscribed: set<Topic>, first: seq<Action>, second: seq<Action>)
    ensures PerformAll(subscribed, first + second) == PerformAll(PerformAll(subscribed, first), second)
  {
    if second == [] {
      assert first + second == first;
    } else {
      var front, last := second[..|second| - 1], second[|second| - 1];
      assert first + second == (first + front) + [last];
      PerformAppend(subscribed, first + front, last);
      PerformConcat(subscribed, first, front);
    }
  }
}
