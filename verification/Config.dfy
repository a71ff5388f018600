/** The token-driven configuration parser of state.c. */
module Config {
  import opened PeerRecord

  /** The tokens of a YAML scan that load_config tells apart. */
  datatype Token =
    | StreamStart
    | StreamEnd
    | BlockMappingStart
    | BlockSequenceStart
    | BlockEntry
    | BlockEnd
    | Key
    | Value
    | Scalar(text: string)

  // ----- The shape of a configuration, and its tokens -----

  datatype Pair = Pair(key: string, value: string)

  type Entry = seq<Pair>

  datatype Section = Section(name: string, entries: seq<Entry>)

  function PairTokens(ps: Entry, tail: seq<Token>): seq<Token>
    decreases |ps|, 1
  {
    if ps == [] then tail else [Key] + AfterKey(ps, tail)
  }

  function AfterKey(ps: Entry, tail: seq<Token>): seq<Token>
    requires ps != []
    decreases |ps|, 0
  {
    [Scalar(ps[0].key), Value, Scalar(ps[0].value)] + PairTokens(ps[1..], tail)
  }

  function EntryTokens(es: seq<Entry>, tail: seq<Token>): seq<Token>
    decreases |es|, 1
  {
    if es == [] then tail else [BlockEntry] + AfterEntry(es, tail)
  }

  function AfterEntry(es: seq<Entry>, tail: seq<Token>): seq<Token>
    requires es != []
    decreases |es|, 0
  {
    [BlockMappingStart] + PairTokens(es[0], [BlockEnd] + EntryTokens(es[1..], tail))
  }

  function SectionTokens(ss: seq<Section>, tail: seq<Token>): seq<Token> {
    if ss == [] then tail
    else
      [Key, Scalar(ss[0].name), Value, BlockSequenceStart]
      + EntryTokens(ss[0].entries, [BlockEnd] + SectionTokens(ss[1..], tail))
  }

  /** The scan of a top-level mapping whose keys lead to sequences of flat mappings. */
  function Tokens(ss: seq<Section>): seq<Token> {
    [StreamStart, BlockMappingStart] + SectionTokens(ss, [BlockEnd, StreamEnd])
  }

  predicate WellFormed(ss: seq<Section>) {
    && ss != []
    && forall s :: s in ss ==> s.entries != [] && forall e :: e in s.entries ==> e != []
  }

  // ----- What the parser does with a key and a value -----

  datatype Sequence = NoSequence | Asymmetric | Symmetric

  /** load_config's variables. `added` are the peers given to add_to_peer_list so far. */
  datatype Vars = Vars(
    key: string,
    name: string,
    lastName: string,
    peerInit: bool,
    peer: Peer,
    peerid: int,
    sequence: Sequence,
    added: seq<Peer>)

  datatype Outcome = Exits | Runs(vars: Vars)

  /** A new record: malloc's memory with the next id and the current name. */
  function NewPeer(env: Env, id: int, name: string): Peer {
    env.raw(id).(id := id, name := Clip(name, COPIED))
  }

  function NextPeer(env: Env, v: Vars): Vars {
    v.(added := if v.peerInit then v.added + [v.peer] else v.added,
       peerInit := true,
       peer := NewPeer(env, v.peerid, v.name),
       peerid := v.peerid + 1,
       lastName := Clip(v.name, COPIED))
  }

  /** The body reached with a key and then a scalar value in a sequence's mapping. */
  function Feed(env: Env, v: Vars, value: string): (r: Outcome)
    ensures r.Runs? ==> r.vars.sequence == v.sequence
  {
    var w := if SameFirst("name", v.key, 4) then v.(name := Clip(value, COPIED)) else v;
    if w.sequence != Symmetric then Runs(w)
    else if w.peerInit && !SameFirst(w.key, "name", |w.key|) && SameFirst(w.lastName, w.name, |w.lastName|) then
      match StoreField(env, w.peer, FieldOf(w.key), value)
      case Dies => Exits
      case Stores(p) => Runs(w.(peer := p))
    else Runs(NextPeer(env, w))
  }

  function FeedPairs(env: Env, v: Vars, ps: Entry): (r: Outcome)
    ensures r.Runs? ==> r.vars.sequence == v.sequence
    decreases |ps|
  {
    if ps == [] then Runs(v)
    else
      match Feed(env, v.(key := Clip(ps[0].key, COPIED)), ps[0].value)
      case Exits => Exits
      case Runs(w) => FeedPairs(env, w, ps[1..])
  }

  function FeedEntries(env: Env, v: Vars, es: seq<Entry>): (r: Outcome)
    ensures r.Runs? ==> r.vars.sequence == v.sequence
    decreases |es|
  {
    if es == [] then Runs(v)
    else
      match FeedPairs(env, v, es[0])
      case Exits => Exits
      case Runs(w) => FeedEntries(env, w, es[1..])
  }

  /** The kind of sequence a key announces; an unknown key leaves it as it was. */
  function Announced(key: string, was: Sequence): Sequence {
    if SameFirst("symmetric-peers", key, 15) then Symmetric
    else if SameFirst("assymetric-peers", key, 16) then Asymmetric
    else was
  }

  function Enter(v: Vars, name: string): Vars {
    var key := Clip(name, COPIED);
    v.(key := key, sequence := Announced(key, v.sequence))
  }

  function FeedSections(env: Env, v: Vars, ss: seq<Section>): Outcome
    decreases |ss|
  {
    if ss == [] then Runs(v)
    else
      match FeedEntries(env, Enter(v, ss[0].name), ss[0].entries)
      case Exits => Exits
      case Runs(w) => FeedSections(env, w, ss[1..])
  }

  /** What load_config leaves behind: the peers in the order they were added, unless it exited. */
  datatype Loaded = Exited | Peers(peers: seq<Peer>)

  function Finish(o: Outcome): Loaded {
    match o
    case Exits => Exited
    case Runs(v) => Peers(if v.peerInit then v.added + [v.peer] else v.added)
  }

  lemma KeyIsForgotten(env: Env, v: Vars, k: string, ss: seq<Section>)
    ensures Finish(FeedSections(env, v.(key := k), ss)) == Finish(FeedSections(env, v, ss))
  {
  }

  // ----- The parser in place -----

  /** yaml_parser_scan over an open file. */
  class Scanner {
    var stream: seq<Token>

    constructor (stream: seq<Token>)
      ensures this.stream == stream
    {
      this.stream := stream;
    }

    method Scan() returns (token: Token)
      requires stream != []
      modifies this
      ensures token == old(stream)[0] && stream == old(stream)[1..]
    {
      token := stream[0];
      stream := stream[1..];
    }
  }

  /** A key and what follows it, behind the key's token. */
  method SkipKey(scanner: Scanner, v: Vars) returns (w: Vars, token: Token)
    requires |scanner.stream| >= 3 && scanner.stream[0].Scalar? && scanner.stream[1] == Value
    modifies scanner
    ensures token == old(scanner.stream)[2] && scanner.stream == old(scanner.stream)[3..]
    ensures w == v.(key := w.key)
  {
    w := v;
    token := scanner.Scan();
    if token.Scalar? {
      w := w.(key := Clip(token.text, COPIED));
    }
    token := scanner.Scan();
    if token == Value {
      token := scanner.Scan();
    }
  }

  /** Behind a pair's key token come its key and value, and then the other pairs. */
  lemma PairAhead(ps: Entry, tail: seq<Token>, stream: seq<Token>)
    requires ps != [] && [Key] + stream == PairTokens(ps, tail)
    ensures |stream| >= 3 && stream[0].Scalar? && stream[1] == Value && stream[2].Scalar?
    ensures stream[3..] == PairTokens(ps[1..], tail)
  {
    assert stream == ([Key] + stream)[1..] == AfterKey(ps, tail);
  }

  /**
   * The loop that a mapping at the outer level starts: it runs up to the first block end and
   * keeps nothing but the last key. `ps` is the innermost mapping it gets to.
   */
  method SkipMapping(scanner: Scanner, v: Vars, ghost lead: seq<Token>, ghost ps: Entry, ghost rest: seq<Token>)
    returns (w: Vars)
    requires lead == [] ||
             exists name :: lead == [Key, Scalar(name), Value, BlockSequenceStart, BlockEntry, BlockMappingStart]
    requires scanner.stream == lead + PairTokens(ps, [BlockEnd] + rest)
    modifies scanner
    ensures scanner.stream == rest
    ensures w == v.(key := w.key)
  {
    w := v;
    ghost var lead', ps', tail := lead, ps, [BlockEnd] + rest;
    while true
      invariant lead' == [] || lead' == [BlockEntry, BlockMappingStart] || lead' == [BlockMappingStart] || lead' == lead
      invariant scanner.stream == lead' + PairTokens(ps', tail)
      invariant w == v.(key := w.key)
      decreases |scanner.stream|
    {
      assert lead' == [] && ps' == [] ==> scanner.stream == tail;
      var token := scanner.Scan();
      if token == Key {
        if lead' == [] {
          PairAhead(ps', tail, scanner.stream);
          ps' := ps'[1..];
        } else {
          lead' := lead'[4..];
        }
        w, token := SkipKey(scanner, w);
      } else if lead' != [] {
        lead' := lead'[1..];
      }
      if token == BlockEnd {
        return;
      }
    }
  }

  /**
   * The loop over one mapping of a sequence. On entry its first key has been scanned; on exit
   * the token after the mapping's end has.
   */
  method StoreMapping(scanner: Scanner, env: Env, v: Vars, first: Token, ghost e: Entry, ghost rest: seq<Token>)
    returns (r: Outcome, token: Token)
    requires e != [] && rest != [] && (rest[0] == BlockEntry || rest[0] == BlockEnd)
    requires first == Key && scanner.stream == AfterKey(e, [BlockEnd] + rest)
    modifies scanner
    ensures r == FeedPairs(env, v, e)
    ensures r.Runs? ==> token == rest[0] && scanner.stream == rest[1..]
  {
    token := first;
    var w := v;
    ghost var ps := e;
    while token != BlockEntry && token != BlockEnd
      invariant if ps == [] then token == rest[0] && scanner.stream == rest[1..]
                else token == Key && scanner.stream == AfterKey(ps, [BlockEnd] + rest)
      invariant FeedPairs(env, v, e) == FeedPairs(env, w, ps)
      decreases |ps|
    {
      if token == Key {
        token := scanner.Scan();
        if token.Scalar? {
          w := w.(key := Clip(token.text, COPIED));
          token := scanner.Scan();
          if token == Value {
            token := scanner.Scan();
            if token.Scalar? {
              r := Feed(env, w, token.text);
              if r.Exits? {
                return;
              }
              w := r.vars;
            }
            token := scanner.Scan();
            if token == BlockEnd {
              token := scanner.Scan();
            }
          }
        }
      }
      ps := ps[1..];
    }
    r := Runs(w);
  }

  /** What follows a key at the outer level. */
  method LoadSection(scanner: Scanner, env: Env, v: Vars, ghost s: Section, ghost rest: seq<Token>) returns (r: Outcome)
    requires WellFormed([s])
    requires scanner.stream ==
             [Scalar(s.name), Value, BlockSequenceStart] + EntryTokens(s.entries, [BlockEnd] + rest)
    modifies scanner
    ensures r == FeedEntries(env, Enter(v, s.name), s.entries)
    ensures r.Runs? ==> scanner.stream == rest
  {
    assert s in [s];
    var w := v;
    var token := scanner.Scan();
    if token.Scalar? {
      w := w.(key := Clip(token.text, COPIED));
    }
    token := scanner.Scan();
    if token == Value {
      token := scanner.Scan();
      if token == BlockSequenceStart {
        w := w.(sequence := Announced(w.key, w.sequence));
        token := scanner.Scan();
        if token == BlockEntry {
          r := LoadEntries(scanner, env, w, s.entries, rest);
        }
      }
    }
  }

  /** The loop over a sequence's entries, from behind its first block entry token. */
  method LoadEntries(scanner: Scanner, env: Env, v: Vars, ghost entries: seq<Entry>, ghost rest: seq<Token>)
    returns (r: Outcome)
    requires entries != [] && forall e :: e in entries ==> e != []
    requires scanner.stream == AfterEntry(entries, [BlockEnd] + rest)
    modifies scanner
    ensures r == FeedEntries(env, v, entries)
    ensures r.Runs? ==> scanner.stream == rest
  {
    r := Runs(v);
    ghost var es := entries;
    var token := BlockEntry;
    while token != BlockEnd
      invariant if es == [] then token == BlockEnd && scanner.stream == rest
                else token == BlockEntry && scanner.stream == AfterEntry(es, [BlockEnd] + rest)
      invariant forall e :: e in es ==> e != []
      invariant r.Runs? && FeedEntries(env, v, entries) == FeedEntries(env, r.vars, es)
      decreases |es|
    {
      token := scanner.Scan();
      if token == BlockMappingStart {
        token := scanner.Scan();
        ghost var after := EntryTokens(es[1..], [BlockEnd] + rest);
        assert es[0] in es;
        r, token := StoreMapping(scanner, env, r.vars, token, es[0], after);
        if r.Exits? {
          return;
        }
      }
      assert forall e :: e in es[1..] ==> e in es;
      es := es[1..];
    }
  }

  /** How far the outer loop has come, for specification only. */
  datatype Stage =
    | AtStart
    | AtTop
    | InFirst(entries: seq<Entry>)
    | InFirstEntry(entries: seq<Entry>)
    | AtSections(sections: seq<Section>)
    | AtEnd
    | Done

  /** The tokens still to come at a stage. */
  ghost function Remaining(at: Stage, ss: seq<Section>): seq<Token>
    requires ss != []
  {
    var fin := [BlockEnd, StreamEnd];
    match at
    case AtStart => Tokens(ss)
    case AtTop => [BlockMappingStart] + SectionTokens(ss, fin)
    case InFirst(es) => EntryTokens(es, [BlockEnd] + SectionTokens(ss[1..], fin))
    case InFirstEntry(es) => if es == [] then [] else AfterEntry(es, [BlockEnd] + SectionTokens(ss[1..], fin))
    case AtSections(rs) => SectionTokens(rs, fin)
    case AtEnd => [StreamEnd]
    case Done => []
  }

  /** The sections whose peers are still to be loaded at a stage: never the first. */
  ghost function ToLoad(at: Stage, ss: seq<Section>): seq<Section>
    requires ss != []
  {
    match at
    case AtSections(rs) => rs
    case AtEnd => []
    case Done => []
    case _ => ss[1..]
  }

  predicate ValidStage(at: Stage) {
    match at
    case InFirst(es) => forall e :: e in es ==> e != []
    case InFirstEntry(es) => es != [] && forall e :: e in es ==> e != []
    case AtSections(rs) => rs == [] || WellFormed(rs)
    case _ => true
  }

  function Level(at: Stage): nat {
    match at
    case AtStart => 5
    case AtTop => 4
    case InFirst(_) => 3
    case InFirstEntry(_) => 3
    case AtSections(_) => 2
    case AtEnd => 1
    case Done => 0
  }

  function Left(at: Stage): int {
    match at
    case InFirst(es) => 2 * |es|
    case InFirstEntry(es) => 2 * |es| - 1
    case AtSections(rs) => |rs|
    case _ => 0
  }

  /** The outer loop's first branch, at the top-level mapping or an entry of its first section. */
  method LoadLeading(scanner: Scanner, ghost env: Env, v: Vars, ghost at: Stage, ghost ss: seq<Section>)
    returns (w: Vars, ghost to: Stage)
    requires WellFormed(ss) && ValidStage(at) && (at == AtTop || at.InFirstEntry?)
    requires [BlockMappingStart] + scanner.stream == Remaining(at, ss)
    modifies scanner
    ensures ValidStage(to) && to.InFirst? && scanner.stream == Remaining(to, ss)
    ensures Finish(FeedSections(env, w, ss[1..])) == Finish(FeedSections(env, v, ss[1..]))
    ensures at.InFirstEntry? ==> to.entries == at.entries[1..]
  {
    assert ss[0] in ss;
    ghost var es := if at == AtTop then ss[0].entries else at.entries;
    ghost var tail := [BlockEnd] + SectionTokens(ss[1..], [BlockEnd, StreamEnd]);
    ghost var lead :=
      if at == AtTop then [Key, Scalar(ss[0].name), Value, BlockSequenceStart, BlockEntry, BlockMappingStart] else [];
    assert es[0] in es;
    assert scanner.stream == lead + PairTokens(es[0], [BlockEnd] + EntryTokens(es[1..], tail)) by {
      assert ([BlockMappingStart] + scanner.stream)[1..] == scanner.stream;
      assert EntryTokens(es, tail) == [BlockEntry] + AfterEntry(es, tail);
    }
    w := SkipMapping(scanner, v, lead, es[0], EntryTokens(es[1..], tail));
    to := InFirst(es[1..]);
    KeyIsForgotten(env, v, w.key, ss[1..]);
    assert forall e :: e in es[1..] ==> e in es;
  }

  /** The outer loop's second branch, at the key of one of the later sections. */
  method LoadNext(scanner: Scanner, env: Env, v: Vars, ghost rs: seq<Section>) returns (o: Outcome)
    requires rs != [] && WellFormed(rs)
    requires [Key] + scanner.stream == SectionTokens(rs, [BlockEnd, StreamEnd])
    modifies scanner
    ensures ValidStage(AtSections(rs[1..]))
    ensures o.Exits? ==> FeedSections(env, v, rs).Exits?
    ensures o.Runs? ==> FeedSections(env, v, rs) == FeedSections(env, o.vars, rs[1..])
    ensures o.Runs? ==> scanner.stream == SectionTokens(rs[1..], [BlockEnd, StreamEnd])
  {
    assert rs[0] in rs && forall s :: s in rs[1..] ==> s in rs;
    assert forall s :: s in [rs[0]] ==> s in rs;
    assert ([Key] + scanner.stream)[1..] == scanner.stream;
    o := LoadSection(scanner, env, v, rs[0], SectionTokens(rs[1..], [BlockEnd, StreamEnd]));
  }

  /** Where any other token leads: it is passed over. */
  ghost function After(at: Stage, ss: seq<Section>): Stage
    requires ss != []
  {
    match at
    case AtStart => AtTop
    case InFirst(es) => if es == [] then AtSections(ss[1..]) else InFirstEntry(es)
    case AtSections(_) => AtEnd
    case _ => Done
  }

  /** The stage that comes after is nearer the end. */
  ghost predicate Nearer(to: Stage, at: Stage) {
    Level(to) < Level(at) || (Level(to) == Level(at) && 0 <= Left(to) < Left(at))
  }

  /** In the first section: its end, or the entry token of the next of its entries. */
  lemma PassedInFirst(es: seq<Entry>, ss: seq<Section>, token: Token, stream: seq<Token>)
    requires WellFormed(ss) && ValidStage(InFirst(es)) && [token] + stream == Remaining(InFirst(es), ss)
    ensures var to := After(InFirst(es), ss);
            && ValidStage(to) && stream == Remaining(to, ss) && Nearer(to, InFirst(es))
            && token == if es == [] then BlockEnd else BlockEntry
  {
    var tail := SectionTokens(ss[1..], [BlockEnd, StreamEnd]);
    assert forall s :: s in ss[1..] ==> s in ss;
    if es == [] {
      HeadAndTail(token, stream, BlockEnd, tail);
    } else {
      HeadAndTail(token, stream, BlockEntry, AfterEntry(es, [BlockEnd] + tail));
    }
  }

  lemma PassedOver(at: Stage, ss: seq<Section>, token: Token, stream: seq<Token>)
    requires WellFormed(ss) && ValidStage(at) && at != Done && [token] + stream == Remaining(at, ss)
    requires token != BlockMappingStart && token != Key
    ensures var to := After(at, ss);
            && ValidStage(to) && stream == Remaining(to, ss) && Nearer(to, at)
            && (token == StreamEnd <==> to == Done)
            && ToLoad(to, ss) == ToLoad(at, ss)
  {
    if at.InFirst? {
      PassedInFirst(at.entries, ss, token, stream);
    } else {
      assert token == ([token] + stream)[0] && stream == ([token] + stream)[1..];
      FirstOfSections(ss);
      if at.AtSections? {
        FirstOfSections(at.sections);
      }
    }
  }

  lemma HeadAndTail(token: Token, stream: seq<Token>, first: Token, rest: seq<Token>)
    requires [token] + stream == [first] + rest
    ensures token == first && stream == rest
  {
    assert stream == ([token] + stream)[1..];
    assert rest == ([first] + rest)[1..];
  }

  lemma FirstOfSections(rs: seq<Section>)
    ensures rs != [] ==> SectionTokens(rs, [BlockEnd, StreamEnd])[0] == Key
  {
  }

  /** One turn of the outer loop. */
  method Turn(scanner: Scanner, env: Env, v: Vars, ghost at: Stage, ghost ss: seq<Section>)
    returns (token: Token, o: Outcome, ghost to: Stage)
    requires WellFormed(ss) && ValidStage(at) && at != Done && scanner.stream == Remaining(at, ss)
    modifies scanner
    ensures o.Exits? ==> Finish(FeedSections(env, v, ToLoad(at, ss))) == Exited
    ensures o.Runs? ==>
              && ValidStage(to) && scanner.stream == Remaining(to, ss)
              && (token == StreamEnd <==> to == Done)
              && Finish(FeedSections(env, v, ToLoad(at, ss))) == Finish(FeedSections(env, o.vars, ToLoad(to, ss)))
              && Nearer(to, at)
  {
    token := scanner.Scan();
    o := Runs(v);
    if token == BlockMappingStart {
      var w;
      w, to := LoadLeading(scanner, env, v, at, ss);
      o, token := Runs(w), BlockEnd;
    } else if token == Key {
      o := LoadNext(scanner, env, v, at.sections);
      to, token := AtSections(at.sections[1..]), BlockEnd;
    } else {
      to := After(at, ss);
      PassedOver(at, ss, token, scanner.stream);
    }
  }

  /**
   * load_config on the tokens of a well-formed configuration: it consumes them all, exits or
   * returns, and leaves the peers of every section but the first.
   */
  method LoadConfig(env: Env, scanner: Scanner, initial: Vars, ghost ss: seq<Section>) returns (r: Loaded)
    requires WellFormed(ss) && scanner.stream == Tokens(ss)
    modifies scanner
    ensures r == Finish(FeedSections(env, initial, ss[1..]))
    ensures r.Peers? ==> scanner.stream == []
  {
    var v := initial;
    var token := StreamStart;
    ghost var at := AtStart;
    while token != StreamEnd
      invariant ValidStage(at) && scanner.stream == Remaining(at, ss)
      invariant token == StreamEnd <==> at == Done
      invariant Finish(FeedSections(env, initial, ss[1..])) == Finish(FeedSections(env, v, ToLoad(at, ss)))
      decreases Level(at), Left(at)
    {
      var o;
      token, o, at := Turn(scanner, env, v, at, ss);
      if o.Exits? {
        return Exited;
      }
      v := o.vars;
    }
    r := Peers(if v.peerInit then v.added + [v.peer] else v.added);
  }
}
