/** What load_config makes of a well-formed configuration, from its tokens to the list of peers. */
module PeerLoading {
  import opened Config
  import opened IntrusiveList
  import opened PeerRecord

  // ----- The entries that describe peers -----

  /** A key that neither names a peer nor is cut off when it is copied. */
  predicate PlainKey(k: string) {
    |k| <= 255 && !("name" <= k) && !(k <= "name")
  }

  /** An entry that names its peer first and once. */
  predicate PeerEntry(e: Entry) {
    && e != []
    && e[0].key == "name"
    && forall i :: 1 <= i < |e| ==> PlainKey(e[i].key)
  }

  function SettingsOf(ps: Entry): (r: seq<Setting>)
    ensures |r| == |ps| && forall i :: 0 <= i < |ps| ==> r[i] == Setting(FieldOf(ps[i].key), ps[i].value)
  {
    seq(|ps|, i requires 0 <= i < |ps| => Setting(FieldOf(ps[i].key), ps[i].value))
  }

  /** The peer that an entry describes. */
  function PeerOf(env: Env, id: int, e: Entry): Stored {
    if e == [] then Dies else StoreAll(env, NewPeer(env, id, e[0].value), SettingsOf(e[1..]))
  }

  /** How an entry becomes a peer with a given number. */
  type Maker = (int, Entry) -> Stored

  function MakerOf(env: Env): Maker {
    (id, e) => PeerOf(env, id, e)
  }

  /** How a section is read: by how its name begins, or else like the section before it. */
  function KindOf(name: string, was: Sequence): Sequence {
    if "symmetric-peers" <= name then Symmetric
    else if "assymetric-peers" <= name then Asymmetric
    else was
  }

  lemma BeginsWith(word: string, name: string, n: nat)
    requires n == |word| <= COPIED
    ensures SameFirst(word, Clip(name, COPIED), n) <==> word <= name
  {
    assert Clip(word, n) == word;
    if n <= |name| {
      assert Clip(Clip(name, COPIED), n) == name[..n];
    }
  }

  lemma AnnouncedByName(name: string, was: Sequence)
    ensures Announced(Clip(name, COPIED), was) == KindOf(name, was)
  {
    BeginsWith("symmetric-peers", name, 15);
    BeginsWith("assymetric-peers", name, 16);
  }

  /** The entries of all sections read as symmetric peers, in order; a name that announces nothing changes nothing. */
  function PeerEntries(was: Sequence, ss: seq<Section>): seq<Entry>
    decreases |ss|
  {
    if ss == [] then []
    else
      var now := KindOf(ss[0].name, was);
      (if now == Symmetric then ss[0].entries else []) + PeerEntries(now, ss[1..])
  }

  predicate AllPeerEntries(es: seq<Entry>) {
    forall i :: 0 <= i < |es| ==> PeerEntry(es[i])
  }

  /** All entries read as symmetric peers are peer entries. */
  predicate PeerSections(was: Sequence, ss: seq<Section>)
    decreases |ss|
  {
    ss == [] ||
    var now := KindOf(ss[0].name, was);
    (now == Symmetric ==> AllPeerEntries(ss[0].entries)) && PeerSections(now, ss[1..])
  }

  /** One peer, unless making it made the program exit. */
  function One(made: Stored): Loaded {
    match made
    case Dies => Exited
    case Stores(p) => Peers([p])
  }

  /** One group of peers and then another, unless making either made the program exit. */
  function Then(first: Loaded, rest: Loaded): Loaded {
    if first.Exited? || rest.Exited? then Exited else Peers(first.peers + rest.peers)
  }

  /** The peers of these entries, numbered on from `id`. */
  function PeersOf(make: Maker, id: int, es: seq<Entry>): Loaded
    decreases |es|
  {
    if es == [] then Peers([]) else Then(One(make(id, es[0])), PeersOf(make, id + 1, es[1..]))
  }

  /** The peers that would be in the list if the stream ended here. */
  function SoFar(v: Vars): seq<Peer> {
    if v.peerInit then v.added + [v.peer] else v.added
  }

  // ----- One entry -----

  /** What a key means to the program beside the fields of a record: a key "name" or its abbreviation. */
  lemma NameKeys(k: string)
    ensures SameFirst("name", k, 4) <==> "name" <= k
    ensures SameFirst(k, "name", |k|) <==> k <= "name"
  {
    MatchesPrefix("name", k);
    MatchesPrefix(k, "name");
  }

  /**
   * When a key starts a new peer: if there is none yet, if it is "name" or an abbreviation,
   * or if the name now current does not begin with the last peer's. What the new record shows
   * is the current name and the next id; the record before it goes to the list.
   */
  lemma WhenAPeerStarts(env: Env, v: Vars, value: string)
    requires v.sequence == Symmetric
    ensures var name := if "name" <= v.key then Clip(value, 255) else v.name;
            if !v.peerInit || v.key <= "name" || !(v.lastName <= name)
            then
              && var r := Feed(env, v, value);
                 r.Runs? && var w := r.vars;
                 && w.peerInit && w.key == v.key && w.name == name && w.lastName == Clip(name, 255)
                 && w.added == (if v.peerInit then v.added + [v.peer] else v.added)
                 && w.peer == env.raw(v.peerid).(id := v.peerid, name := Clip(name, 255))
                 && w.peerid == v.peerid + 1 && w.sequence == Symmetric
            else
              match StoreField(env, v.peer, FieldOf(v.key), value)
              case Dies => Feed(env, v, value) == Exits
              case Stores(p) => Feed(env, v, value) == Runs(v.(name := name, peer := p))
  {
    NameKeys(v.key);
    MatchesPrefix(v.lastName, if "name" <= v.key then Clip(value, 255) else v.name);
  }

  lemma {:induction false} FeedSettings(env: Env, v: Vars, ps: Entry)
    requires v.sequence == Symmetric && v.peerInit && v.lastName == v.name
    requires forall i :: 0 <= i < |ps| ==> PlainKey(ps[i].key)
    ensures var r, stored := FeedPairs(env, v, ps), StoreAll(env, v.peer, SettingsOf(ps));
            match stored
            case Dies => r.Exits?
            case Stores(p) => r.Runs? && r.vars == v.(peer := p, key := r.vars.key)
    decreases |ps|
  {
    if ps != [] {
      NameKeys(ps[0].key);
      assert SettingsOf(ps)[1..] == SettingsOf(ps[1..]);
      var w := v.(key := ps[0].key);
      match StoreField(env, v.peer, FieldOf(ps[0].key), ps[0].value) {
        case Dies =>
        case Stores(p) => FeedSettings(env, w.(peer := p), ps[1..]);
      }
    }
  }

  /** The parser went on from v with these peers more, or gave up with them. */
  predicate Adds(v: Vars, r: Outcome, made: Loaded) {
    match made
    case Exited => r.Exits?
    case Peers(ps) => r.Runs? && SoFar(r.vars) == SoFar(v) + ps && r.vars.peerid == v.peerid + |ps|
  }

  lemma AddsThen(v: Vars, first: Outcome, made: Loaded, rest: Outcome, more: Loaded)
    requires Adds(v, first, made)
    requires if first.Exits? then rest.Exits? else Adds(first.vars, rest, more)
    ensures Adds(v, rest, Then(made, more))
  {
  }

  /** An entry finishes the peer before it and starts and fills its own. */
  lemma FeedPeerEntry(env: Env, v: Vars, e: Entry)
    requires v.sequence == Symmetric && PeerEntry(e)
    ensures Adds(v, FeedPairs(env, v, e), One(MakerOf(env)(v.peerid, e)))
  {
    var w := NextPeer(env, v.(key := "name", name := Clip(e[0].value, COPIED)));
    assert Clip("name", COPIED) == "name" && SameFirst("name", "name", 4);
    assert Feed(env, v.(key := "name"), e[0].value) == Runs(w);
    assert w.peer == NewPeer(env, v.peerid, e[0].value);
    FeedSettings(env, w, e[1..]);
  }

  // ----- All entries -----

  lemma AddsEntry(make: Maker, env: Env, v: Vars, es: seq<Entry>)
    requires es != []
    requires var first := FeedPairs(env, v, es[0]);
             && Adds(v, first, One(make(v.peerid, es[0])))
             && (first.Runs? ==>
                   Adds(first.vars, FeedEntries(env, first.vars, es[1..]), PeersOf(make, first.vars.peerid, es[1..])))
    ensures Adds(v, FeedEntries(env, v, es), PeersOf(make, v.peerid, es))
  {
    var first, rest := FeedPairs(env, v, es[0]), FeedEntries(env, v, es);
    AddsThen(v, first, One(make(v.peerid, es[0])), rest, PeersOf(make, v.peerid + 1, es[1..]));
  }

  lemma {:induction false} FeedPeerEntries(env: Env, v: Vars, es: seq<Entry>)
    requires v.sequence == Symmetric && AllPeerEntries(es)
    ensures Adds(v, FeedEntries(env, v, es), PeersOf(MakerOf(env), v.peerid, es))
    decreases |es|
  {
    if es != [] {
      FeedPeerEntry(env, v, es[0]);
      var first := FeedPairs(env, v, es[0]);
      if first.Runs? {
        FeedPeerEntries(env, first.vars, es[1..]);
      }
      AddsEntry(MakerOf(env), env, v, es);
    }
  }

  lemma ThenIsAssociative(a: Loaded, b: Loaded, c: Loaded)
    ensures Then(Then(a, b), c) == Then(a, Then(b, c))
    ensures Then(Peers([]), a) == a
  {
    if a.Peers? {
      assert [] + a.peers == a.peers;
      if b.Peers? && c.Peers? {
        assert a.peers + b.peers + c.peers == a.peers + (b.peers + c.peers);
      }
    }
  }

  lemma {:induction false} PeersOfBoth(make: Maker, id: int, es: seq<Entry>, fs: seq<Entry>)
    ensures PeersOf(make, id, es + fs) == Then(PeersOf(make, id, es), PeersOf(make, id + |es|, fs))
    decreases |es|
  {
    if es == [] {
      assert es + fs == fs;
      ThenIsAssociative(PeersOf(make, id, fs), Exited, Exited);
    } else {
      assert (es + fs)[1..] == es[1..] + fs;
      PeersOfBoth(make, id + 1, es[1..], fs);
      ThenIsAssociative(One(make(id, es[0])), PeersOf(make, id + 1, es[1..]), PeersOf(make, id + |es|, fs));
    }
  }

  lemma {:induction false} PeersOfCount(make: Maker, id: int, es: seq<Entry>)
    ensures PeersOf(make, id, es).Peers? ==> |PeersOf(make, id, es).peers| == |es|
    decreases |es|
  {
    if es != [] {
      PeersOfCount(make, id + 1, es[1..]);
    }
  }

  /** Peer by peer: all entries work out or one of them makes the program exit. */
  lemma {:induction false} PeersOfEach(make: Maker, id: int, es: seq<Entry>)
    ensures match PeersOf(make, id, es)
            case Exited => exists i :: 0 <= i < |es| && make(id + i, es[i]).Dies?
            case Peers(ps) => |ps| == |es| && forall i :: 0 <= i < |es| ==> make(id + i, es[i]) == Stores(ps[i])
    decreases |es|
  {
    if es != [] {
      PeersOfEach(make, id + 1, es[1..]);
      var rest := PeersOf(make, id + 1, es[1..]);
      if make(id, es[0]).Dies? {
        assert make(id + 0, es[0]).Dies?;
      } else if rest.Exited? {
        var i :| 0 <= i < |es[1..]| && make(id + 1 + i, es[1..][i]).Dies?;
        assert make(id + (i + 1), es[i + 1]).Dies?;
      } else {
        forall i | 0 < i < |es|
          ensures make(id + i, es[i]) == Stores(PeersOf(make, id, es).peers[i])
        {
          assert es[i] == es[1..][i - 1] && id + i == id + 1 + (i - 1);
        }
      }
    }
  }

  /** A sequence that is not of symmetric peers changes only the current key and name. */
  lemma {:induction false} OtherPairs(env: Env, v: Vars, ps: Entry)
    requires v.sequence != Symmetric
    ensures var r := FeedPairs(env, v, ps);
            r.Runs? && r.vars == v.(key := r.vars.key, name := r.vars.name)
    decreases |ps|
  {
    if ps != [] {
      var r := Feed(env, v.(key := Clip(ps[0].key, COPIED)), ps[0].value);
      OtherPairs(env, r.vars, ps[1..]);
    }
  }

  lemma {:induction false} OtherEntries(env: Env, v: Vars, es: seq<Entry>)
    requires v.sequence != Symmetric
    ensures var r := FeedEntries(env, v, es);
            r.Runs? && r.vars == v.(key := r.vars.key, name := r.vars.name)
    decreases |es|
  {
    if es != [] {
      OtherPairs(env, v, es[0]);
      OtherEntries(env, FeedPairs(env, v, es[0]).vars, es[1..]);
    }
  }

  lemma FeedSection(env: Env, v: Vars, s: Section)
    requires KindOf(s.name, v.sequence) == Symmetric ==> AllPeerEntries(s.entries)
    ensures var w := Enter(v, s.name);
            && w.sequence == KindOf(s.name, v.sequence)
            && Adds(v, FeedEntries(env, w, s.entries),
                    PeersOf(MakerOf(env), v.peerid, if w.sequence == Symmetric then s.entries else []))
  {
    AnnouncedByName(s.name, v.sequence);
    var w := Enter(v, s.name);
    if w.sequence == Symmetric {
      FeedPeerEntries(env, w, s.entries);
    } else {
      OtherEntries(env, w, s.entries);
    }
  }

  /** The peers of one group of entries and then those of another. */
  lemma {:induction false} AddsBoth(make: Maker, v: Vars, first: Outcome, es: seq<Entry>, rest: Outcome, fs: seq<Entry>)
    requires Adds(v, first, PeersOf(make, v.peerid, es))
    requires if first.Exits? then rest.Exits? else Adds(first.vars, rest, PeersOf(make, first.vars.peerid, fs))
    ensures Adds(v, rest, PeersOf(make, v.peerid, es + fs))
  {
    PeersOfBoth(make, v.peerid, es, fs);
    PeersOfCount(make, v.peerid, es);
    AddsThen(v, first, PeersOf(make, v.peerid, es), rest, PeersOf(make, v.peerid + |es|, fs));
  }

  lemma {:induction false} FeedPeerSections(env: Env, v: Vars, ss: seq<Section>)
    requires PeerSections(v.sequence, ss)
    ensures Adds(v, FeedSections(env, v, ss), PeersOf(MakerOf(env), v.peerid, PeerEntries(v.sequence, ss)))
    decreases |ss|
  {
    if ss != [] {
      var w := Enter(v, ss[0].name);
      FeedSection(env, v, ss[0]);
      var first := FeedEntries(env, w, ss[0].entries);
      if first.Runs? {
        FeedPeerSections(env, first.vars, ss[1..]);
      }
      AddsBoth(MakerOf(env), v, first, if w.sequence == Symmetric then ss[0].entries else [],
               FeedSections(env, v, ss), PeerEntries(w.sequence, ss[1..]));
    }
  }

  /** load_config's variables when it starts. */
  predicate Fresh(v: Vars) {
    v.sequence == NoSequence && !v.peerInit && v.peerid == 1 && v.added == []
  }

  /**
   * What load_config leaves of any number of sections after the first: the peers of all
   * symmetric ones, numbered from 1 in the order of the file.
   */
  lemma LoadedPeers(env: Env, initial: Vars, ss: seq<Section>)
    requires Fresh(initial) && PeerSections(NoSequence, ss)
    ensures Finish(FeedSections(env, initial, ss)) == PeersOf(MakerOf(env), 1, PeerEntries(NoSequence, ss))
  {
    FeedPeerSections(env, initial, ss);
    FromFresh(initial, FeedSections(env, initial, ss), PeersOf(MakerOf(env), 1, PeerEntries(NoSequence, ss)));
  }

  lemma FromFresh(initial: Vars, r: Outcome, made: Loaded)
    requires Fresh(initial) && Adds(initial, r, made)
    ensures Finish(r) == made
  {
    if made.Peers? {
      assert [] + made.peers == made.peers;
    }
  }

  // ----- Sections of other kinds -----

  /** Nothing is loaded under either of the other kinds, so it does not matter which it was. */
  lemma {:induction false} OtherKindsAlike(ss: seq<Section>)
    ensures PeerEntries(Asymmetric, ss) == PeerEntries(NoSequence, ss)
    ensures PeerSections(Asymmetric, ss) <==> PeerSections(NoSequence, ss)
    decreases |ss|
  {
    if ss != [] {
      OtherKindsAlike(ss[1..]);
    }
  }

  lemma OneMoreSection(was: Sequence, s: Section, ss: seq<Section>)
    ensures var now, all := KindOf(s.name, was), [s] + ss;
            && PeerEntries(was, all) == (if now == Symmetric then s.entries else []) + PeerEntries(now, ss)
            && (PeerSections(was, all) <==> (now == Symmetric ==> AllPeerEntries(s.entries)) && PeerSections(now, ss))
  {
    assert ([s] + ss)[1..] == ss;
  }

  /** The two words, with anything behind them, are told apart whatever came before. */
  lemma KindsAreTold(name: string, was: Sequence)
    ensures "symmetric-peers" <= name ==> KindOf(name, was) == Symmetric
    ensures "assymetric-peers" <= name ==> KindOf(name, was) == Asymmetric
  {
    assert "symmetric-peers"[0] == 's' && "assymetric-peers"[0] == 'a';
  }

  /** Sections with the same entries to load are loaded alike. */
  lemma LoadedAlike(env: Env, initial: Vars, ss: seq<Section>, ts: seq<Section>)
    requires Fresh(initial) && PeerSections(NoSequence, ss) && PeerSections(NoSequence, ts)
    requires PeerEntries(NoSequence, ss) == PeerEntries(NoSequence, ts)
    ensures Finish(FeedSections(env, initial, ss)) == Finish(FeedSections(env, initial, ts))
  {
    LoadedPeers(env, initial, ss);
    LoadedPeers(env, initial, ts);
  }

  /** A section of asymmetric peers adds no peer and uses up no id, in front of any others. */
  lemma AsymmetricAddsNothing(env: Env, initial: Vars, s: Section, ss: seq<Section>)
    requires Fresh(initial) && PeerSections(NoSequence, ss)
    requires "assymetric-peers" <= s.name
    ensures Finish(FeedSections(env, initial, [s] + ss)) == Finish(FeedSections(env, initial, ss))
  {
    KindsAreTold(s.name, NoSequence);
    OtherKindsAlike(ss);
    OneMoreSection(NoSequence, s, ss);
    LoadedAlike(env, initial, [s] + ss, ss);
  }

  /**
   * Between two sections of symmetric peers it ends the first, and does not keep the second
   * from being loaded: the two are loaded as one.
   */
  lemma AsymmetricBetween(env: Env, initial: Vars, first: Section, s: Section, second: Section, ss: seq<Section>)
    requires Fresh(initial) && PeerSections(Symmetric, ss)
    requires AllPeerEntries(first.entries) && AllPeerEntries(second.entries)
    requires "symmetric-peers" <= first.name && "assymetric-peers" <= s.name && "symmetric-peers" <= second.name
    ensures Finish(FeedSections(env, initial, [first] + ([s] + ([second] + ss)))) ==
            Finish(FeedSections(env, initial, [Section(first.name, first.entries + second.entries)] + ss))
  {
    KindsAreTold(first.name, NoSequence);
    KindsAreTold(s.name, Symmetric);
    KindsAreTold(second.name, Asymmetric);
    OneMoreSection(Asymmetric, second, ss);
    OneMoreSection(Symmetric, s, [second] + ss);
    Joined(env, initial, first, [s] + ([second] + ss), second.entries, ss);
  }

  /** Symmetric peers can be written in one section or in two. */
  lemma Joined(env: Env, initial: Vars, first: Section, rest: seq<Section>, es: seq<Entry>, ss: seq<Section>)
    requires Fresh(initial) && KindOf(first.name, NoSequence) == Symmetric && AllPeerEntries(first.entries)
    requires PeerSections(Symmetric, rest) && PeerEntries(Symmetric, rest) == es + PeerEntries(Symmetric, ss)
    requires PeerSections(Symmetric, ss) && AllPeerEntries(es)
    ensures Finish(FeedSections(env, initial, [first] + rest)) ==
            Finish(FeedSections(env, initial, [Section(first.name, first.entries + es)] + ss))
  {
    var joined := Section(first.name, first.entries + es);
    OneMoreSection(NoSequence, first, rest);
    OneMoreSection(NoSequence, joined, ss);
    assert first.entries + (es + PeerEntries(Symmetric, ss)) == joined.entries + PeerEntries(Symmetric, ss);
    LoadedAlike(env, initial, [first] + rest, [joined] + ss);
  }

  /** A section whose name begins neither way is loaded as part of the one before it. */
  lemma UnknownNameContinues(env: Env, initial: Vars, first: Section, s: Section, ss: seq<Section>)
    requires Fresh(initial) && PeerSections(Symmetric, ss)
    requires AllPeerEntries(first.entries) && AllPeerEntries(s.entries)
    requires "symmetric-peers" <= first.name
    requires !("symmetric-peers" <= s.name) && !("assymetric-peers" <= s.name)
    ensures Finish(FeedSections(env, initial, [first] + ([s] + ss))) ==
            Finish(FeedSections(env, initial, [Section(first.name, first.entries + s.entries)] + ss))
  {
    KindsAreTold(first.name, NoSequence);
    OneMoreSection(Symmetric, s, ss);
    Joined(env, initial, first, [s] + ss, s.entries, ss);
  }

  /** In front of all sections of symmetric peers, such a section adds nothing. */
  lemma NothingAnnounced(env: Env, initial: Vars, s: Section, ss: seq<Section>)
    requires Fresh(initial) && PeerSections(NoSequence, ss)
    requires !("symmetric-peers" <= s.name) && !("assymetric-peers" <= s.name)
    ensures Finish(FeedSections(env, initial, [s] + ss)) == Finish(FeedSections(env, initial, ss))
  {
    OneMoreSection(NoSequence, s, ss);
    LoadedAlike(env, initial, [s] + ss, ss);
  }

  // ----- Writing a configuration and loading it -----

  datatype PeerSpec = PeerSpec(name: string, settings: seq<Setting>)

  /** The entry that says this: the name first, then every key written in full. */
  function EntryFor(p: PeerSpec): Entry {
    [Pair("name", p.name)]
    + seq(|p.settings|, i requires 0 <= i < |p.settings| => Pair(KeyName(p.settings[i].field), p.settings[i].value))
  }

  function EntriesFor(specs: seq<PeerSpec>): (r: seq<Entry>)
    ensures |r| == |specs| && forall i :: 0 <= i < |specs| ==> r[i] == EntryFor(specs[i])
  {
    seq(|specs|, i requires 0 <= i < |specs| => EntryFor(specs[i]))
  }

  function PeersSection(specs: seq<PeerSpec>): Section {
    Section("symmetric-peers", EntriesFor(specs))
  }

  lemma KeyNamesArePlain(f: Field)
    ensures PlainKey(KeyName(f))
  {
    assert Initials(f) != ('n', 'a');
    var k := if Initials(f).0 == 'n' then 1 else 0;
    DifferAt("name", KeyName(f), 4, k);
    DifferAt(KeyName(f), "name", |KeyName(f)|, k);
  }

  /** Reading an entry back gives the settings it was written for. */
  lemma EntrySaysItsSettings(p: PeerSpec)
    ensures PeerEntry(EntryFor(p))
    ensures SettingsOf(EntryFor(p)[1..]) == p.settings
  {
    var e := EntryFor(p);
    forall i | 1 <= i < |e| ensures PlainKey(e[i].key) {
      KeyNamesArePlain(p.settings[i - 1].field);
    }
    forall i | 0 <= i < |p.settings| ensures SettingsOf(e[1..])[i] == p.settings[i] {
      KeyNamesAreRecognised(p.settings[i].field);
    }
  }

  predicate AllResolvable(env: Env, p: PeerSpec) {
    forall j :: 0 <= j < |p.settings| ==> Resolvable(env, p.settings[j])
  }

  /** No later setting spoils setting j. */
  predicate Unspoiled(settings: seq<Setting>, j: nat)
    requires j < |settings|
  {
    forall k :: j < k < |settings| ==> !Spoils(settings[k].field, settings[j].field)
  }

  /** The record shows the name and every setting that fits and that no later one spoils. */
  predicate Matches(env: Env, p: Peer, spec: PeerSpec) {
    && p.name == Clip(spec.name, COPIED)
    && forall j :: 0 <= j < |spec.settings| && FitsBuffer(spec.settings[j]) && Unspoiled(spec.settings, j) ==>
         Shows(env, p, spec.settings[j])
  }

  /** The program exits over the peer, or the record has this id and matches. */
  predicate MadeRight(env: Env, made: Stored, id: int, spec: PeerSpec) {
    match made
    case Dies => !AllResolvable(env, spec)
    case Stores(p) => AllResolvable(env, spec) && p.id == id && Matches(env, p, spec)
  }

  lemma PeerMatches(env: Env, id: int, spec: PeerSpec)
    ensures MadeRight(env, MakerOf(env)(id, EntryFor(spec)), id, spec)
  {
    EntrySaysItsSettings(spec);
    var start, settings := NewPeer(env, id, spec.name), spec.settings;
    assert EntryFor(spec)[0].value == spec.name;
    DiesExactlyWhen(env, start, settings);
    var made := StoreAll(env, start, settings);
    if made.Stores? {
      forall j | 0 <= j < |settings| && FitsBuffer(settings[j]) && Unspoiled(settings, j)
        ensures Shows(env, made.peer, settings[j])
      {
        UnspoiledReadsBack(env, start, settings, j);
      }
    }
  }

  /**
   * The round trip: a configuration is written for some peers behind any leading section.
   * Loading it exits if and only if some setting cannot be resolved, and otherwise gives
   * exactly those peers, numbered from 1, with every setting that fits and is not spoiled.
   */
  lemma ConfigRoundTrip(env: Env, initial: Vars, specs: seq<PeerSpec>)
    requires Fresh(initial)
    ensures match Finish(FeedSections(env, initial, [PeersSection(specs)]))
            case Exited => exists i :: 0 <= i < |specs| && !AllResolvable(env, specs[i])
            case Peers(ps) =>
              && |ps| == |specs|
              && forall i :: 0 <= i < |specs| ==>
                   AllResolvable(env, specs[i]) && ps[i].id == 1 + i && Matches(env, ps[i], specs[i])
  {
    var ss, es := [PeersSection(specs)], EntriesFor(specs);
    forall i | 0 <= i < |es| ensures PeerEntry(es[i]) {
      EntrySaysItsSettings(specs[i]);
    }
    OneSection(specs);
    LoadedPeers(env, initial, ss);
    forall i | 0 <= i < |specs| ensures MadeRight(env, MakerOf(env)(1 + i, es[i]), 1 + i, specs[i]) {
      PeerMatches(env, 1 + i, specs[i]);
    }
    EachMatches(env, MakerOf(env), specs);
  }

  lemma EachMatches(env: Env, make: Maker, specs: seq<PeerSpec>)
    requires forall i :: 0 <= i < |specs| ==> MadeRight(env, make(1 + i, EntriesFor(specs)[i]), 1 + i, specs[i])
    ensures match PeersOf(make, 1, EntriesFor(specs))
            case Exited => exists i :: 0 <= i < |specs| && !AllResolvable(env, specs[i])
            case Peers(ps) =>
              && |ps| == |specs|
              && forall i :: 0 <= i < |specs| ==>
                   AllResolvable(env, specs[i]) && ps[i].id == 1 + i && Matches(env, ps[i], specs[i])
  {
    var es := EntriesFor(specs);
    PeersOfEach(make, 1, es);
    match PeersOf(make, 1, es) {
      case Exited =>
        var i :| 0 <= i < |es| && make(1 + i, es[i]).Dies?;
        assert MadeRight(env, make(1 + i, es[i]), 1 + i, specs[i]);
      case Peers(ps) =>
        forall i | 0 <= i < |specs|
          ensures MadeRight(env, Stores(ps[i]), 1 + i, specs[i])
        {
          assert make(1 + i, es[i]) == Stores(ps[i]);
        }
    }
  }

  lemma OneSection(specs: seq<PeerSpec>)
    requires AllPeerEntries(EntriesFor(specs))
    ensures PeerSections(NoSequence, [PeersSection(specs)])
    ensures PeerEntries(NoSequence, [PeersSection(specs)]) == EntriesFor(specs)
  {
    assert [PeersSection(specs)][1..] == [];
  }

  // ----- The list of peers -----

  lemma OneMore(peers: seq<Peer>, i: nat, links: seq<Link<Peer>>, pc: Link<Peer>)
    requires i < |peers| && Entries(links) == Reversed(peers[..i]) && pc.entry == peers[i]
    ensures Entries([pc] + links) == Reversed(peers[..i + 1])
  {
    var a, b := Entries([pc] + links), Reversed(peers[..i + 1]);
    assert |Entries(links)| == i;
    forall j | 0 <= j < i + 1 ensures a[j] == b[j] {
      if j > 0 {
        assert a[j] == Entries(links)[j - 1] == peers[..i][i - j];
      }
    }
  }

  /** add_to_peer_list for each peer in turn, on the list that init_peer_list made. */
  method AddToPeerList(peers: seq<Peer>, head: Link<Peer>) returns (ghost links: seq<Link<Peer>>)
    modifies head
    ensures List(head, links) && Entries(links) == Reversed(peers)
    ensures fresh(links)
  {
    InitListHead(head);
    links := [];
    var i := 0;
    while i < |peers|
      invariant 0 <= i <= |peers|
      invariant List(head, links) && fresh(links)
      invariant Entries(links) == Reversed(peers[..i])
    {
      var pc := new ListHead(peers[i]);
      Neighbours([head] + links, 0);
      ListAdd(pc, head, links);
      assert List(head, [pc] + links);
      OneMore(peers, i, links, pc);
      links := [pc] + links;
      i := i + 1;
    }
    assert peers[..i] == peers;
  }

  lemma ReversedTwice<T>(s: seq<T>)
    ensures Reversed(Reversed(s)) == s
  {
  }

  /** Loading a written configuration, whatever its first section. */
  method LoadWritten(env: Env, scanner: Scanner, initial: Vars, ghost first: Section, ghost specs: seq<PeerSpec>)
    returns (r: Loaded)
    requires specs != [] && WellFormed([first]) && scanner.stream == Tokens([first, PeersSection(specs)])
    modifies scanner
    ensures r == Finish(FeedSections(env, initial, [PeersSection(specs)]))
    ensures r.Peers? ==> scanner.stream == []
  {
    ghost var ss := [first, PeersSection(specs)];
    assert WellFormed(ss) by {
      assert first in [first];
    }
    assert ss[1..] == [PeersSection(specs)];
    r := LoadConfig(env, scanner, initial, ss);
  }

  /** Listing peers and walking the list in both directions. */
  method ListAndVisit(peers: seq<Peer>, head: Link<Peer>) returns (forward: seq<Peer>, backward: seq<Peer>)
    modifies head
    ensures forward == Reversed(peers) && backward == peers
  {
    ghost var links := AddToPeerList(peers, head);
    forward := ForEach(head, links);
    backward := ForEachPrev(head, links);
    ReversedTwice(peers);
  }

  /**
   * Loading a written configuration and walking the list of peers: backward visits them in the
   * order of the file, which is the order of their ids, and forward in the opposite order.
   */
  method LoadAndVisit(env: Env, scanner: Scanner, initial: Vars, head: Link<Peer>,
                      ghost first: Section, ghost specs: seq<PeerSpec>)
    returns (r: Loaded, forward: seq<Peer>, backward: seq<Peer>)
    requires Fresh(initial) && specs != [] && WellFormed([first])
    requires scanner.stream == Tokens([first, PeersSection(specs)])
    modifies scanner, head
    ensures r.Exited? <==> exists i :: 0 <= i < |specs| && !AllResolvable(env, specs[i])
    ensures r.Peers? ==>
              && scanner.stream == []
              && |backward| == |specs|
              && (forall i :: 0 <= i < |specs| ==> backward[i].id == 1 + i && Matches(env, backward[i], specs[i]))
              && forward == Reversed(backward)
  {
    ConfigRoundTrip(env, initial, specs);
    r := LoadWritten(env, scanner, initial, first, specs);
    forward, backward := [], [];
    if r.Peers? {
      forward, backward := ListAndVisit(r.peers, head);
    }
  }
}
