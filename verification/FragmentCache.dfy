/** The fragment-class cache of tun.c against an unbounded map, and the classification of
    IPv4 packets that uses it. Jiffies do not wrap. */
module FragmentCache {
  import opened SetSizes

  const SIZE: nat := 16
  const CLASSES: nat := 3
  const REALTIME: nat := 0
  const DATA: nat := 2

  const ICMP: nat := 1
  const TCP: nat := 6
  const UDP: nat := 17
  const SSH_PORT: nat := 22

  /** What identifies a datagram (section 3.2 of RFC 791). */
  datatype Key = Key(source: nat, destination: nat, identification: nat, protocol: nat)

  datatype Entry = Entry(valid: bool, key: Key, cls: nat, expires: nat)

  datatype Option<T> = None | Some(value: T)

  datatype Stored = Stored(cls: nat, expires: nat)

  const FREE := Entry(false, Key(0, 0, 0, 0), 0, 0)

  // ------------------------------------------------------------------ the ideal map

  type Ideal = map<Key, Stored>

  function IdealStore(m: Ideal, now: nat, ttl: nat, key: Key, cls: nat): Ideal {
    if cls >= CLASSES then m else m[key := Stored(cls, now + ttl)]
  }

  function IdealLookup(m: Ideal, now: nat, key: Key): Option<nat> {
    if key in m && now < m[key].expires then Some(m[key].cls) else None
  }

  function IdealAfterLookup(m: Ideal, now: nat, key: Key, remove: bool): Ideal {
    if remove && IdealLookup(m, now, key).Some? then m - {key} else m
  }

  // ------------------------------------------------------------------ the cache as functions

  predicate Stale(e: Entry, now: nat) { e.valid && now >= e.expires }

  function Expire(e: Entry, now: nat): Entry { if Stale(e, now) then e.(valid := false) else e }

  predicate Matches(e: Entry, now: nat, key: Key) { e.valid && !Stale(e, now) && e.key == key }

  /** The first unexpired entry for `key`, or the end. */
  function FindKey(es: seq<Entry>, now: nat, key: Key, from: nat): (i: nat)
    requires from <= |es|
    ensures from <= i <= |es|
    ensures i < |es| ==> Matches(es[i], now, key)
    ensures forall j :: from <= j < i ==> !Matches(es[j], now, key)
    decreases |es| - from
  {
    if from == |es| || Matches(es[from], now, key) then from else FindKey(es, now, key, from + 1)
  }

  /** The first entry that is free or expired, or the end. */
  function FindFree(es: seq<Entry>, now: nat, from: nat): (i: nat)
    requires from <= |es|
    ensures from <= i <= |es|
    ensures i < |es| ==> !es[i].valid || Stale(es[i], now)
    ensures forall j :: from <= j < i ==> es[j].valid && !Stale(es[j], now)
    decreases |es| - from
  {
    if from == |es| || !es[from].valid || Stale(es[from], now) then from else FindFree(es, now, from + 1)
  }

  /** Entries the scan has passed are expired where they are due. */
  function Sweep(es: seq<Entry>, now: nat, upTo: nat): (r: seq<Entry>)
    ensures |r| == |es| && forall i :: 0 <= i < |es| ==> r[i] == if i < upTo then Expire(es[i], now) else es[i]
  {
    seq(|es|, i requires 0 <= i < |es| => if i < upTo then Expire(es[i], now) else es[i])
  }

  function Candidate(es: seq<Entry>, now: nat, key: Key, next: nat): (i: nat)
    requires |es| == SIZE
    ensures i < SIZE
  {
    if FindKey(es, now, key, 0) < SIZE then FindKey(es, now, key, 0)
    else if FindFree(es, now, 0) < SIZE then FindFree(es, now, 0)
    else next % SIZE
  }

  predicate Evicts(es: seq<Entry>, now: nat, key: Key)
    requires |es| == SIZE
  {
    FindKey(es, now, key, 0) == SIZE && FindFree(es, now, 0) == SIZE
  }

  /** What lq_tun_fragment_class_store leaves. */
  function AfterStore(es: seq<Entry>, now: nat, ttl: nat, key: Key, cls: nat, next: nat): seq<Entry>
    requires |es| == SIZE
  {
    if cls >= CLASSES then es
    else Sweep(es, now, FindKey(es, now, key, 0))[Candidate(es, now, key, next) := Entry(true, key, cls, now + ttl)]
  }

  /** What lq_tun_fragment_class_lookup leaves. */
  function AfterLookup(es: seq<Entry>, now: nat, key: Key, remove: bool): seq<Entry>
    requires |es| == SIZE
  {
    var i := FindKey(es, now, key, 0);
    var swept := Sweep(es, now, i);
    if i < SIZE && remove then swept[i := swept[i].(valid := false)] else swept
  }

  // ------------------------------------------------------------------ refinement

  /** Valid entries have distinct keys, and each says what the ideal map says. */
  predicate Refines(es: seq<Entry>, m: Ideal) {
    && |es| == SIZE
    && (forall i, j :: 0 <= i < j < |es| && es[i].valid && es[j].valid ==> es[i].key != es[j].key)
    && (forall i :: 0 <= i < |es| && es[i].valid ==>
          es[i].key in m && m[es[i].key] == Stored(es[i].cls, es[i].expires) && es[i].cls < CLASSES)
  }

  lemma EmptyRefines()
    ensures Refines(seq(SIZE, _ => FREE), map[])
  {
  }

  lemma StoreRefines(es: seq<Entry>, m: Ideal, now: nat, ttl: nat, key: Key, cls: nat, next: nat)
    requires Refines(es, m)
    ensures Refines(AfterStore(es, now, ttl, key, cls, next), IdealStore(m, now, ttl, key, cls))
  {
  }

  lemma LookupRefines(es: seq<Entry>, m: Ideal, now: nat, key: Key, remove: bool)
    requires Refines(es, m)
    ensures Refines(AfterLookup(es, now, key, remove), IdealAfterLookup(m, now, key, remove))
  {
  }

  /** A hit is what the ideal map answers: the class of the latest store that was not taken
      out, still within its deadline. A miss where the map would hit is all eviction can do. */
  lemma HitIsIdeal(es: seq<Entry>, m: Ideal, now: nat, key: Key)
    requires Refines(es, m)
    ensures var i := FindKey(es, now, key, 0); i < SIZE ==> IdealLookup(m, now, key) == Some(es[i].cls)
  {
  }

  // ------------------------------------------------------------------ when the cache is exact

  /** Every store that is still alive has its entry. */
  predicate Complete(es: seq<Entry>, m: Ideal, now: nat) {
    forall key :: key in m && now < m[key].expires ==> Holds(es, key)
  }

  predicate Holds(es: seq<Entry>, key: Key) { exists i :: 0 <= i < |es| && es[i].valid && es[i].key == key }

  ghost function Alive(m: Ideal, now: nat): set<Key> { set key | key in m && now < m[key].expires }

  ghost function KeysOf(es: seq<Entry>): set<Key> { set i | 0 <= i < |es| :: es[i].key }

  lemma {:induction false} KeysSize(es: seq<Entry>)
    requires forall i, j :: 0 <= i < j < |es| ==> es[i].key != es[j].key
    ensures |KeysOf(es)| == |es|
  {
    if es != [] {
      var n := |es| - 1;
      var front := es[..n];
      KeysSize(front);
      forall k | k in KeysOf(es) ensures k in KeysOf(front) + {es[n].key} {
        var i :| 0 <= i < |es| && es[i].key == k;
        assert i < n ==> front[i].key == k;
      }
      forall k | k in KeysOf(front) ensures k in KeysOf(es) {
        var i :| 0 <= i < n && front[i].key == k;
        assert es[i].key == k;
      }
      assert KeysOf(es) == KeysOf(front) + {es[n].key};
    }
  }

  /** Something is evicted only when more than 16 stores are alive. */
  lemma EvictionNeedsSeventeen(es: seq<Entry>, m: Ideal, now: nat, ttl: nat, key: Key, cls: nat)
    requires Refines(es, m) && Evicts(es, now, key) && cls < CLASSES && ttl > 0
    ensures |Alive(IdealStore(m, now, ttl, key, cls), now)| > SIZE
  {
    var m' := IdealStore(m, now, ttl, key, cls);
    KeysSize(es);
    forall k | k in KeysOf(es) + {key} ensures k in Alive(m', now) {
      if k != key {
        var i :| 0 <= i < |es| && es[i].key == k;
        assert es[i].valid && !Stale(es[i], now);
      }
    }
    forall i | 0 <= i < |es| ensures es[i].key != key {
      assert !Matches(es[i], now, key);
    }
    assert key !in KeysOf(es);
    SubsetSize(KeysOf(es) + {key}, Alive(m', now));
  }

  /** With at most 16 stores alive the cache holds them all. */
  lemma StoreComplete(es: seq<Entry>, m: Ideal, now: nat, ttl: nat, key: Key, cls: nat, next: nat)
    requires Refines(es, m) && Complete(es, m, now) && ttl > 0
    requires |Alive(IdealStore(m, now, ttl, key, cls), now)| <= SIZE
    ensures Complete(AfterStore(es, now, ttl, key, cls, next), IdealStore(m, now, ttl, key, cls), now)
  {
    if cls < CLASSES {
      if Evicts(es, now, key) {
        EvictionNeedsSeventeen(es, m, now, ttl, key, cls);
      }
      var i := Candidate(es, now, key, next);
      var es' := AfterStore(es, now, ttl, key, cls, next);
      forall k | k in m && now < m[k].expires && k != key ensures Holds(es', k) {
        assert Holds(es, k);
        var j :| 0 <= j < |es| && es[j].valid && es[j].key == k;
        assert !Stale(es[j], now);
        assert es'[j] == es[j];
      }
      assert es'[i].valid && es'[i].key == key;
    }
  }

  /** And then it answers every lookup exactly as the unbounded map does. */
  lemma LookupComplete(es: seq<Entry>, m: Ideal, now: nat, key: Key, remove: bool)
    requires Refines(es, m) && Complete(es, m, now)
    ensures Complete(AfterLookup(es, now, key, remove), IdealAfterLookup(m, now, key, remove), now)
    ensures var i := FindKey(es, now, key, 0);
            IdealLookup(m, now, key) == if i < SIZE then Some(es[i].cls) else None
  {
    if key in m && now < m[key].expires {
      assert Holds(es, key);
      var j :| 0 <= j < |es| && es[j].valid && es[j].key == key;
      assert Matches(es[j], now, key);
    }
    var es', m' := AfterLookup(es, now, key, remove), IdealAfterLookup(m, now, key, remove);
    forall k | k in m' && now < m'[k].expires ensures Holds(es', k) {
      assert Holds(es, k);
      var j :| 0 <= j < |es| && es[j].valid && es[j].key == k;
      assert !Stale(es[j], now);
      assert es'[j] == es[j];
    }
  }

  /** Time passing only makes stores die. */
  lemma LaterComplete(es: seq<Entry>, m: Ideal, now: nat, later: nat)
    requires Complete(es, m, now) && now <= later
    ensures Complete(es, m, later)
  {
  }

  datatype Op = Put(key: Key, cls: nat, next: nat, now: nat) | Get(key: Key, remove: bool, now: nat)

  function CacheAfterOp(es: seq<Entry>, op: Op, ttl: nat): (r: seq<Entry>)
    requires |es| == SIZE
    ensures |r| == SIZE
  {
    match op
    case Put(key, cls, next, now) => AfterStore(es, now, ttl, key, cls, next)
    case Get(key, remove, now) => AfterLookup(es, now, key, remove)
  }

  function CacheAfter(es: seq<Entry>, ops: seq<Op>, ttl: nat): (r: seq<Entry>)
    requires |es| == SIZE
    ensures |r| == SIZE
    decreases |ops|
  {
    if ops == [] then es else CacheAfter(CacheAfterOp(es, ops[0], ttl), ops[1..], ttl)
  }

  function MapAfterOp(m: Ideal, op: Op, ttl: nat): Ideal {
    match op
    case Put(key, cls, _, now) => IdealStore(m, now, ttl, key, cls)
    case Get(key, remove, now) => IdealAfterLookup(m, now, key, remove)
  }

  function MapAfter(m: Ideal, ops: seq<Op>, ttl: nat): Ideal
    decreases |ops|
  {
    if ops == [] then m else MapAfter(MapAfterOp(m, ops[0], ttl), ops[1..], ttl)
  }

  /** Time does not go back, and no store leaves more than 16 alive. */
  ghost predicate FewAlive(m: Ideal, ops: seq<Op>, ttl: nat, clock: nat)
    decreases |ops|
  {
    ops == [] ||
    (&& clock <= ops[0].now
     && (ops[0].Put? ==> |Alive(MapAfterOp(m, ops[0], ttl), ops[0].now)| <= SIZE)
     && FewAlive(MapAfterOp(m, ops[0], ttl), ops[1..], ttl, ops[0].now))
  }

  lemma OpExact(es: seq<Entry>, m: Ideal, op: Op, ttl: nat, clock: nat)
    requires Refines(es, m) && Complete(es, m, clock) && ttl > 0 && clock <= op.now
    requires op.Put? ==> |Alive(MapAfterOp(m, op, ttl), op.now)| <= SIZE
    ensures Refines(CacheAfterOp(es, op, ttl), MapAfterOp(m, op, ttl))
    ensures Complete(CacheAfterOp(es, op, ttl), MapAfterOp(m, op, ttl), op.now)
  {
    LaterComplete(es, m, clock, op.now);
    match op
    case Put(key, cls, next, now) =>
      StoreRefines(es, m, now, ttl, key, cls, next);
      StoreComplete(es, m, now, ttl, key, cls, next);
    case Get(key, remove, now) =>
      LookupRefines(es, m, now, key, remove);
      LookupComplete(es, m, now, key, remove);
  }

  /** Over any such run the cache is the unbounded map: after it every lookup, hit or miss,
      is answered as the map answers it. */
  lemma {:induction false} SmallLoadsAreExact(es: seq<Entry>, m: Ideal, ops: seq<Op>, ttl: nat, clock: nat, key: Key,
                                              later: nat)
    requires Refines(es, m) && Complete(es, m, clock) && ttl > 0 && FewAlive(m, ops, ttl, clock)
    requires later >= if ops == [] then clock else ops[|ops| - 1].now
    ensures var i := FindKey(CacheAfter(es, ops, ttl), later, key, 0);
            IdealLookup(MapAfter(m, ops, ttl), later, key)
              == if i < SIZE then Some(CacheAfter(es, ops, ttl)[i].cls) else None
    decreases |ops|
  {
    if ops == [] {
      LaterComplete(es, m, clock, later);
      LookupComplete(es, m, later, key, false);
    } else {
      OpExact(es, m, ops[0], ttl, clock);
      SmallLoadsAreExact(CacheAfterOp(es, ops[0], ttl), MapAfterOp(m, ops[0], ttl), ops[1..], ttl, ops[0].now, key,
                         later);
    }
  }

  // ------------------------------------------------------------------ packets

  datatype Rule = Rule(protocol: nat, start: nat, end: nat, cls: nat)

  datatype Ports = Ports(source: nat, destination: nat)

  /** What classification reads of an IPv4 packet; `wellFormed` is the header check. */
  datatype Packet = Packet(wellFormed: bool, key: Key, offset: nat, more: bool, ports: Option<Ports>)

  predicate InRange(r: Rule, p: Ports) {
    (r.start <= p.source <= r.end) || (r.start <= p.destination <= r.end)
  }

  /** lq_tun_classify_ports: SSH first, then the first matching rule. */
  function ClassifyPorts(rules: seq<Rule>, protocol: nat, p: Ports): nat {
    if protocol == TCP && (p.source == SSH_PORT || p.destination == SSH_PORT) then REALTIME
    else FirstRule(rules, protocol, p)
  }

  function FirstRule(rules: seq<Rule>, protocol: nat, p: Ports): nat {
    if rules == [] then DATA
    else if rules[0].protocol == protocol && InRange(rules[0], p) then rules[0].cls
    else FirstRule(rules[1..], protocol, p)
  }

  predicate RulesOk(rules: seq<Rule>) { forall k :: 0 <= k < |rules| ==> rules[k].cls < CLASSES }

  lemma {:induction false} RuleClass(rules: seq<Rule>, protocol: nat, p: Ports)
    requires RulesOk(rules)
    ensures FirstRule(rules, protocol, p) < CLASSES
  {
    if rules != [] {
      RuleClass(rules[1..], protocol, p);
    }
  }

  predicate RuleMatches(r: Rule, protocol: nat, p: Ports) { r.protocol == protocol && InRange(r, p) }

  /** The first rule that matches decides. */
  lemma {:induction false} FirstRuleIs(rules: seq<Rule>, protocol: nat, p: Ports, k: nat)
    requires k <= |rules| && forall j :: 0 <= j < k ==> !RuleMatches(rules[j], protocol, p)
    requires k < |rules| ==> RuleMatches(rules[k], protocol, p)
    ensures FirstRule(rules, protocol, p) == if k < |rules| then rules[k].cls else DATA
    decreases k
  {
    if k > 0 {
      FirstRuleIs(rules[1..], protocol, p, k - 1);
    }
  }

  function FirstFragmentClass(rules: seq<Rule>, p: Packet): nat {
    if p.ports.None? then DATA else ClassifyPorts(rules, p.key.protocol, p.ports.value)
  }

  predicate Tracked(p: Packet) { p.wellFormed && (p.key.protocol == TCP || p.key.protocol == UDP) }

  /** The class an unbounded cache would give. */
  function IdealClass(m: Ideal, rules: seq<Rule>, now: nat, p: Packet): nat {
    if !p.wellFormed then DATA
    else if p.key.protocol == ICMP then REALTIME
    else if !Tracked(p) then DATA
    else if p.offset == 0 then FirstFragmentClass(rules, p)
    else if IdealLookup(m, now, p.key).Some? then IdealLookup(m, now, p.key).value
    else DATA
  }

  function IdealAfter(m: Ideal, rules: seq<Rule>, now: nat, ttl: nat, p: Packet): Ideal {
    if !Tracked(p) then m
    else if p.offset != 0 then IdealAfterLookup(m, now, p.key, !p.more)
    else if p.more then IdealStore(m, now, ttl, p.key, FirstFragmentClass(rules, p))
    else m
  }

  // ------------------------------------------------------------------ packets through the cache

  datatype Cache = Cache(entries: seq<Entry>, next: nat)

  /** What lq_tun_classify_skb answers, and the cache it leaves. */
  function CacheClass(c: Cache, rules: seq<Rule>, now: nat, p: Packet): nat
    requires |c.entries| == SIZE
  {
    if !p.wellFormed then DATA
    else if p.key.protocol == ICMP then REALTIME
    else if !Tracked(p) then DATA
    else if p.offset == 0 then FirstFragmentClass(rules, p)
    else if FindKey(c.entries, now, p.key, 0) < SIZE then c.entries[FindKey(c.entries, now, p.key, 0)].cls
    else DATA
  }

  function CachePut(c: Cache, rules: seq<Rule>, now: nat, ttl: nat, p: Packet): (r: Cache)
    requires |c.entries| == SIZE
    ensures |r.entries| == SIZE
  {
    if !Tracked(p) then c
    else if p.offset != 0 then c.(entries := AfterLookup(c.entries, now, p.key, !p.more))
    else if !p.more || FirstFragmentClass(rules, p) >= CLASSES then c
    else Cache(AfterStore(c.entries, now, ttl, p.key, FirstFragmentClass(rules, p), c.next),
               if Evicts(c.entries, now, p.key) then c.next + 1 else c.next)
  }

  function CacheAfterAll(c: Cache, rules: seq<Rule>, ttl: nat, packets: seq<(Packet, nat)>): (r: Cache)
    requires |c.entries| == SIZE
    ensures |r.entries| == SIZE
  {
    if packets == [] then c
    else
      var last := packets[|packets| - 1];
      CachePut(CacheAfterAll(c, rules, ttl, packets[..|packets| - 1]), rules, last.1, ttl, last.0)
  }

  function IdealAfterAll(m: Ideal, rules: seq<Rule>, ttl: nat, packets: seq<(Packet, nat)>): Ideal {
    if packets == [] then m
    else
      var last := packets[|packets| - 1];
      IdealAfter(IdealAfterAll(m, rules, ttl, packets[..|packets| - 1]), rules, last.1, ttl, last.0)
  }

  /** One packet keeps the cache a part of the ideal map. */
  lemma PacketRefines(c: Cache, m: Ideal, rules: seq<Rule>, now: nat, ttl: nat, p: Packet)
    requires Refines(c.entries, m)
    ensures Refines(CachePut(c, rules, now, ttl, p).entries, IdealAfter(m, rules, now, ttl, p))
    ensures CacheClass(c, rules, now, p) == IdealClass(m, rules, now, p)
            || (CacheClass(c, rules, now, p) == DATA && p.offset != 0)
  {
    HitIsIdeal(c.entries, m, now, p.key);
    LookupRefines(c.entries, m, now, p.key, !p.more);
    StoreRefines(c.entries, m, now, ttl, p.key, FirstFragmentClass(rules, p), c.next);
  }

  lemma {:induction false} RunRefines(c: Cache, m: Ideal, rules: seq<Rule>, ttl: nat, packets: seq<(Packet, nat)>)
    requires Refines(c.entries, m)
    ensures Refines(CacheAfterAll(c, rules, ttl, packets).entries, IdealAfterAll(m, rules, ttl, packets))
  {
    if packets != [] {
      var n := |packets| - 1;
      RunRefines(c, m, rules, ttl, packets[..n]);
      PacketRefines(CacheAfterAll(c, rules, ttl, packets[..n]), IdealAfterAll(m, rules, ttl, packets[..n]),
                    rules, packets[n].1, ttl, packets[n].0);
    }
  }

  /** Time does not go back, and no packet leaves more than 16 stores alive. */
  ghost predicate FewPackets(m: Ideal, rules: seq<Rule>, ttl: nat, clock: nat, packets: seq<(Packet, nat)>) {
    && (forall j, k :: 0 <= j <= k < |packets| ==> clock <= packets[j].1 <= packets[k].1)
    && (forall k :: 0 <= k < |packets| ==>
          |Alive(IdealAfterAll(m, rules, ttl, packets[..k + 1]), packets[k].1)| <= SIZE)
  }

  lemma PacketComplete(c: Cache, m: Ideal, rules: seq<Rule>, clock: nat, now: nat, ttl: nat, p: Packet)
    requires Refines(c.entries, m) && Complete(c.entries, m, clock) && clock <= now && ttl > 0
    requires |Alive(IdealAfter(m, rules, now, ttl, p), now)| <= SIZE
    ensures Complete(CachePut(c, rules, now, ttl, p).entries, IdealAfter(m, rules, now, ttl, p), now)
  {
    LaterComplete(c.entries, m, clock, now);
    if Tracked(p) {
      if p.offset != 0 {
        LookupComplete(c.entries, m, now, p.key, !p.more);
      } else if p.more {
        StoreComplete(c.entries, m, now, ttl, p.key, FirstFragmentClass(rules, p), c.next);
      }
    }
  }

  lemma {:induction false} RunComplete(c: Cache, m: Ideal, rules: seq<Rule>, ttl: nat, clock: nat,
                                       packets: seq<(Packet, nat)>)
    requires Refines(c.entries, m) && Complete(c.entries, m, clock) && ttl > 0
    requires FewPackets(m, rules, ttl, clock, packets)
    ensures Complete(CacheAfterAll(c, rules, ttl, packets).entries, IdealAfterAll(m, rules, ttl, packets),
                     if packets == [] then clock else packets[|packets| - 1].1)
  {
    if packets != [] {
      var n := |packets| - 1;
      var front := packets[..n];
      assert FewPackets(m, rules, ttl, clock, front) by {
        forall k | 0 <= k < |front| ensures |Alive(IdealAfterAll(m, rules, ttl, front[..k + 1]), front[k].1)| <= SIZE {
          assert front[..k + 1] == packets[..k + 1];
        }
      }
      RunRefines(c, m, rules, ttl, front);
      RunComplete(c, m, rules, ttl, clock, front);
      assert packets[..n + 1] == packets;
      PacketComplete(CacheAfterAll(c, rules, ttl, front), IdealAfterAll(m, rules, ttl, front), rules,
                     if front == [] then clock else front[n - 1].1, packets[n].1, ttl, packets[n].0);
    }
  }

  // ------------------------------------------------------------------ the code

  class FragmentClasses {
    const entries: array<Entry>
    const ttl: nat
    var next: nat
    ghost var ideal: Ideal

    ghost predicate Valid()
      reads this, entries
    {
      entries.Length == SIZE && Refines(entries[..], ideal)
    }

    constructor (ttl: nat)
      ensures Valid() && fresh(entries) && this.ttl == ttl && ideal == map[]
    {
      this.ttl := ttl;
      entries := new Entry[SIZE](_ => FREE);
      next, ideal := 0, map[];
      new;
      EmptyRefines();
      assert entries[..] == seq(SIZE, _ => FREE);
    }

    /** The scan of store: expires what is due on the way, stops at the key, remembers the
        first entry it could use. */
    method Scan(key: Key, now: nat) returns (candidate: int)
      requires entries.Length == SIZE
      modifies entries
      ensures var es := old(entries[..]);
              && entries[..] == Sweep(es, now, FindKey(es, now, key, 0))
              && candidate == (if FindKey(es, now, key, 0) < SIZE then FindKey(es, now, key, 0)
                               else if FindFree(es, now, 0) < SIZE then FindFree(es, now, 0) else -1)
    {
      ghost var es := entries[..];
      candidate := -1;
      for i := 0 to SIZE
        invariant entries[..] == Sweep(es, now, i) && i <= FindKey(es, now, key, 0)
        invariant -1 <= candidate < i
        invariant candidate == -1 ==> i <= FindFree(es, now, 0)
        invariant candidate >= 0 ==> candidate == FindFree(es, now, 0)
      {
        assert entries[i] == es[i];
        if entries[i].valid && now >= entries[i].expires {
          entries[i] := entries[i].(valid := false);
        }
        if entries[i].valid && entries[i].key == key {
          assert Matches(es[i], now, key);
          return i;
        }
        if candidate == -1 && !entries[i].valid {
          candidate := i;
        }
        assert entries[..] == Sweep(es, now, i + 1);
      }
    }

    /** lq_tun_fragment_class_store. */
    method Store(key: Key, cls: nat, now: nat)
      requires Valid()
      modifies this`next, this`ideal, entries
      ensures Valid() && ideal == IdealStore(old(ideal), now, ttl, key, cls)
      ensures entries[..] == AfterStore(old(entries[..]), now, ttl, key, cls, old(next))
      ensures next == old(next) + if cls < CLASSES && Evicts(old(entries[..]), now, key) then 1 else 0
    {
      if cls >= CLASSES {
        return;
      }
      ghost var es := entries[..];
      var candidate := Scan(key, now);
      ghost var swept := entries[..];
      ghost var slot := next;
      if candidate == -1 {
        candidate := next % SIZE;
        next := next + 1;
      }
      entries[candidate] := Entry(true, key, cls, now + ttl);
      assert entries[..] == swept[Candidate(es, now, key, slot) := Entry(true, key, cls, now + ttl)];
      StoreRefines(es, ideal, now, ttl, key, cls, slot);
      ideal := IdealStore(ideal, now, ttl, key, cls);
    }

    /** lq_tun_fragment_class_lookup. */
    method Lookup(key: Key, remove: bool, now: nat) returns (found: bool, cls: nat)
      requires Valid()
      modifies this`ideal, entries
      ensures Valid() && ideal == IdealAfterLookup(old(ideal), now, key, remove)
      ensures entries[..] == AfterLookup(old(entries[..]), now, key, remove)
      ensures found <==> FindKey(old(entries[..]), now, key, 0) < SIZE
      ensures found ==>
                IdealLookup(old(ideal), now, key) == Some(cls)
                  && cls == old(entries[..])[FindKey(old(entries[..]), now, key, 0)].cls
    {
      ghost var es := entries[..];
      var i := FindUnexpired(key, now);
      ghost var swept := entries[..];
      found, cls := i < SIZE, DATA;
      HitIsIdeal(es, ideal, now, key);
      if found {
        assert swept[i] == es[i];
        cls := entries[i].cls;
        if remove {
          entries[i] := entries[i].(valid := false);
        }
      }
      assert entries[..] == if i < SIZE && remove then swept[i := swept[i].(valid := false)] else swept;
      LookupRefines(es, ideal, now, key, remove);
      ideal := IdealAfterLookup(ideal, now, key, remove);
    }

    method FindUnexpired(key: Key, now: nat) returns (i: nat)
      requires entries.Length == SIZE
      modifies entries
      ensures i == FindKey(old(entries[..]), now, key, 0)
      ensures entries[..] == Sweep(old(entries[..]), now, i)
    {
      ghost var es := entries[..];
      i := 0;
      while i < SIZE
        invariant i <= FindKey(es, now, key, 0) && entries[..] == Sweep(es, now, i)
      {
        assert entries[i] == es[i];
        if !entries[i].valid {
        } else if now >= entries[i].expires {
          entries[i] := entries[i].(valid := false);
        } else if entries[i].key == key {
          assert Matches(es[i], now, key);
          return;
        }
        assert entries[..] == Sweep(es, now, i + 1);
        i := i + 1;
      }
    }

    /** SSH is REALTIME; otherwise the first rule that matches decides, and DATA if none does. */
    method MatchRules(rules: seq<Rule>, protocol: nat, p: Ports) returns (cls: nat)
      ensures cls == ClassifyPorts(rules, protocol, p)
      ensures protocol == TCP && (p.source == SSH_PORT || p.destination == SSH_PORT) ==> cls == REALTIME
      ensures !(protocol == TCP && (p.source == SSH_PORT || p.destination == SSH_PORT)) ==>
                || (cls == DATA && forall j :: 0 <= j < |rules| ==> !RuleMatches(rules[j], protocol, p))
                || (exists k :: && 0 <= k < |rules| && RuleMatches(rules[k], protocol, p) && cls == rules[k].cls
                                && forall j :: 0 <= j < k ==> !RuleMatches(rules[j], protocol, p))
    {
      if protocol == TCP && (p.source == SSH_PORT || p.destination == SSH_PORT) {
        return REALTIME;
      }
      var k := 0;
      while k < |rules|
        invariant k <= |rules| && forall j :: 0 <= j < k ==> !RuleMatches(rules[j], protocol, p)
      {
        if rules[k].protocol == protocol && !((p.source < rules[k].start || p.source > rules[k].end) &&
                                              (p.destination < rules[k].start || p.destination > rules[k].end))
        {
          assert RuleMatches(rules[k], protocol, p);
          FirstRuleIs(rules, protocol, p, k);
          return rules[k].cls;
        }
        k := k + 1;
      }
      FirstRuleIs(rules, protocol, p, k);
      return DATA;
    }

    /** lq_tun_classify_skb. A fragment that is not the first gets the class its first fragment
        got, or DATA; everything else gets exactly what an unbounded cache would give. */
    method Classify(rules: seq<Rule>, p: Packet, now: nat) returns (cls: nat)
      requires Valid()
      modifies this`next, this`ideal, entries
      ensures Valid() && ideal == IdealAfter(old(ideal), rules, now, ttl, p)
      ensures cls == IdealClass(old(ideal), rules, now, p) || (cls == DATA && Tracked(p) && p.offset != 0)
      ensures var before := Cache(old(entries[..]), old(next));
              cls == CacheClass(before, rules, now, p)
                && Cache(entries[..], next) == CachePut(before, rules, now, ttl, p)
    {
      if !p.wellFormed {
        return DATA;
      }
      if p.key.protocol == ICMP {
        return REALTIME;
      }
      if p.key.protocol != TCP && p.key.protocol != UDP {
        return DATA;
      }
      if p.offset != 0 {
        var found;
        found, cls := Lookup(p.key, !p.more, now);
        if !found {
          cls := DATA;
        }
        return;
      }
      cls := DATA;
      if p.ports.Some? {
        cls := MatchRules(rules, p.key.protocol, p.ports.value);
      }
      if p.more {
        Store(p.key, cls, now);
      }
    }
  }

  // ------------------------------------------------------------------ datagrams

  /** Packets that neither start a datagram with this key again nor end it. */
  predicate LeaveOpen(packets: seq<(Packet, nat)>, key: Key) {
    forall k :: 0 <= k < |packets| ==> packets[k].0.key != key || (packets[k].0.offset != 0 && packets[k].0.more)
  }

  lemma {:induction false} OthersKeep(m: Ideal, rules: seq<Rule>, ttl: nat, packets: seq<(Packet, nat)>, key: Key)
    requires key in m && LeaveOpen(packets, key)
    ensures var m' := IdealAfterAll(m, rules, ttl, packets); key in m' && m'[key] == m[key]
  {
    if packets != [] {
      OthersKeep(m, rules, ttl, packets[..|packets| - 1], key);
    }
  }

  /** The ideal map offers a later fragment its first fragment's class until the deadline. */
  lemma IdealFollowsFirst(m: Ideal, rules: seq<Rule>, first: Packet, t0: nat, ttl: nat, others: seq<(Packet, nat)>,
                          p: Packet, now: nat)
    requires RulesOk(rules) && Tracked(first) && first.offset == 0 && first.more && LeaveOpen(others, first.key)
    requires Tracked(p) && p.offset != 0 && p.key == first.key && now < t0 + ttl
    ensures IdealClass(IdealAfterAll(IdealAfter(m, rules, t0, ttl, first), rules, ttl, others), rules, now, p)
            == FirstFragmentClass(rules, first)
  {
    if first.ports.Some? {
      RuleClass(rules, first.key.protocol, first.ports.value);
    }
    OthersKeep(IdealAfter(m, rules, t0, ttl, first), rules, ttl, others, first.key);
  }

  /** A cache that has evicted nothing still needed, and never more than 16 stores alive from t0 to now. */
  ghost predicate LightLoad(c: Cache, m: Ideal, m1: Ideal, rules: seq<Rule>, t0: nat, ttl: nat,
                            others: seq<(Packet, nat)>, now: nat)
    requires |c.entries| == SIZE
  {
    && Complete(c.entries, m, t0) && |Alive(m1, t0)| <= SIZE && FewPackets(m1, rules, ttl, t0, others)
    && now >= if others == [] then t0 else others[|others| - 1].1
  }

  /** From any cache, after a first fragment and any other packets that leave its datagram open:
      before the deadline, a later fragment is classified as the first one was, or DATA. When no
      more than 16 stores are ever alive it is classified exactly as the first one. */
  lemma FragmentsFollowTheirFirst(c: Cache, m: Ideal, rules: seq<Rule>, first: Packet, t0: nat, ttl: nat,
                                  others: seq<(Packet, nat)>, p: Packet, now: nat)
    requires Refines(c.entries, m) && RulesOk(rules) && Tracked(first) && first.offset == 0 && first.more
    requires Tracked(p) && p.offset != 0 && p.key == first.key && now < t0 + ttl && LeaveOpen(others, first.key)
    ensures var c1, m1 := CachePut(c, rules, t0, ttl, first), IdealAfter(m, rules, t0, ttl, first);
            var cls := CacheClass(CacheAfterAll(c1, rules, ttl, others), rules, now, p);
            && (cls == FirstFragmentClass(rules, first) || cls == DATA)
            && (LightLoad(c, m, m1, rules, t0, ttl, others, now) ==> cls == FirstFragmentClass(rules, first))
  {
    var c1, m1 := CachePut(c, rules, t0, ttl, first), IdealAfter(m, rules, t0, ttl, first);
    var c2, m2 := CacheAfterAll(c1, rules, ttl, others), IdealAfterAll(m1, rules, ttl, others);
    IdealFollowsFirst(m, rules, first, t0, ttl, others, p, now);
    PacketRefines(c, m, rules, t0, ttl, first);
    RunRefines(c1, m1, rules, ttl, others);
    PacketRefines(c2, m2, rules, now, ttl, p);
    if LightLoad(c, m, m1, rules, t0, ttl, others, now) {
      PacketComplete(c, m, rules, t0, t0, ttl, first);
      RunComplete(c1, m1, rules, ttl, t0, others);
      LaterComplete(c2.entries, m2, if others == [] then t0 else others[|others| - 1].1, now);
      LookupComplete(c2.entries, m2, now, p.key, false);
    }
  }
}
