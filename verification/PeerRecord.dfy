/** The peer record of main.h, and how load_config of state.c stores one key and value into it. */
module PeerRecord {

  // ----- C strings -----

  /** At most n characters of s. */
  function Clip(s: string, n: nat): string {
    if |s| <= n then s else s[..n]
  }

  /** strncmp(a, b, n) == 0 */
  predicate SameFirst(a: string, b: string, n: nat) {
    Clip(a, n) == Clip(b, n)
  }

  function Nuls(n: nat): (r: string)
    ensures |r| == n
  {
    seq(n, _ => '\0')
  }

  /** The n characters that strncpy(_, s, n) writes: it pads with NULs. */
  function Padded(s: string, n: nat): (r: string)
    ensures |r| == n
  {
    if |s| >= n then s[..n] else s + Nuls(n - |s|)
  }

  function CopyTo(area: string, at: nat, s: string, n: nat): (r: string)
    requires at + n <= |area|
    ensures |r| == |area|
  {
    area[..at] + Padded(s, n) + area[at + n..]
  }

  /** The C string that starts at this place. */
  function CString(area: string, at: nat): string
    decreases |area| - at
  {
    if at < |area| && area[at] != '\0' then [area[at]] + CString(area, at + 1) else ""
  }

  // ----- The record -----

  const IFNAMSIZ := 16
  const COPIED := 255

  // ifname, tifname, ifmap and peer_ip follow each other in memory.
  const IFNAME := 0
  const TIFNAME := 16
  const IFMAP := 32
  const PEER_IP := 48

  /** The memory of the four neighbouring buffers. */
  type Area = a: string | |a| == 304 witness seq(304, _ => '\0')

  datatype Direction = In | Out | Map | Other(code: int)

  datatype Peer = Peer(
    id: int,
    ipVersion: int,
    direction: Direction,
    threads: int,
    peerip: nat,
    myip: nat,
    name: string,
    area: Area,
    nextHop: string,
    cipher: string,
    socketPath: string,
    pipePath: string,
    key: string)

  /** Code and memory that is not part of the model: name resolution, atoi, what malloc returns. */
  datatype Env = Env(resolve: string -> nat, atoi: string -> int, raw: int -> Peer)

  datatype Field =
    | Type | IpVersion | Threads | Interface | MapInterface | Tunnel | PeerIp
    | NextHop | LocalIp | Cipher | Secret | Socket | Pipe | Unknown

  /** How a field's key is written in full. */
  function KeyName(f: Field): string {
    match f
    case Type => "type"
    case IpVersion => "ip-version"
    case Threads => "threads"
    case Interface => "interface"
    case MapInterface => "map-interface"
    case Tunnel => "tunnel"
    case PeerIp => "peer-ip"
    case NextHop => "next-hop"
    case LocalIp => "local-ip"
    case Cipher => "cipher"
    case Secret => "key"
    case Socket => "socket"
    case Pipe => "pipe"
    case Unknown => "fips"
  }

  /** How the key is compared with a field's: with as many characters as the key has, or in full. */
  predicate Recognises(f: Field, key: string) {
    SameFirst(key, KeyName(f), if f in {Threads, Interface, MapInterface, Tunnel} then IFNAMSIZ else |key|)
  }

  function Recognised(key: string): set<Field> {
    set f: Field | Recognises(f, key)
  }

  /** The comparisons are made in this order, and the first that succeeds decides. */
  function FirstOf(fields: set<Field>): Field {
    if Type in fields then Type
    else if IpVersion in fields then IpVersion
    else if Threads in fields then Threads
    else if Interface in fields then Interface
    else if MapInterface in fields then MapInterface
    else if Tunnel in fields then Tunnel
    else if PeerIp in fields then PeerIp
    else if NextHop in fields then NextHop
    else if LocalIp in fields then LocalIp
    else if Cipher in fields then Cipher
    else if Secret in fields then Secret
    else if Socket in fields then Socket
    else if Pipe in fields then Pipe
    else Unknown
  }

  function FieldOf(key: string): Field {
    FirstOf(Recognised(key))
  }

  lemma DifferAt(a: string, b: string, n: nat, k: nat)
    requires k < n && k < |a| && (k < |b| ==> a[k] != b[k])
    ensures !SameFirst(a, b, n)
  {
    assert Clip(a, n)[k] == a[k];
    if k < |b| {
      assert Clip(b, n)[k] == b[k];
    }
  }

  /** The first two letters tell all keys apart. */
  function Initials(f: Field): (r: (char, char))
    ensures |KeyName(f)| >= 2 && KeyName(f)[0] == r.0 && KeyName(f)[1] == r.1
  {
    match f
    case Type => ('t', 'y')
    case IpVersion => ('i', 'p')
    case Threads => ('t', 'h')
    case Interface => ('i', 'n')
    case MapInterface => ('m', 'a')
    case Tunnel => ('t', 'u')
    case PeerIp => ('p', 'e')
    case NextHop => ('n', 'e')
    case LocalIp => ('l', 'o')
    case Cipher => ('c', 'i')
    case Secret => ('k', 'e')
    case Socket => ('s', 'o')
    case Pipe => ('p', 'i')
    case Unknown => ('f', 'i')
  }

  lemma OnlyOwnKey(f: Field, g: Field)
    ensures Recognises(g, KeyName(f)) <==> f == g
  {
    if f != g {
      assert Initials(f) != Initials(g);
      var n := if g in {Threads, Interface, MapInterface, Tunnel} then IFNAMSIZ else |KeyName(f)|;
      DifferAt(KeyName(f), KeyName(g), n, if Initials(f).0 == Initials(g).0 then 1 else 0);
    }
  }

  lemma FirstOfOne(f: Field)
    ensures FirstOf({f}) == f
  {
  }

  /** Every key written in full is recognised as its own field. */
  lemma KeyNamesAreRecognised(f: Field)
    ensures FieldOf(KeyName(f)) == f
  {
    assert Recognised(KeyName(f)) == {f} by {
      forall g: Field ensures Recognises(g, KeyName(f)) <==> f == g {
        OnlyOwnKey(f, g);
      }
    }
    FirstOfOne(f);
  }

  // ----- What the comparisons mean -----

  /** Compared with as many characters as it has, a text matches exactly what it is a prefix of. */
  lemma MatchesPrefix(a: string, b: string)
    ensures SameFirst(a, b, |a|) <==> a <= b
  {
    if |a| <= |b| {
      assert Clip(b, |a|) == b[..|a|];
    }
  }

  /** Compared with more characters than a word has, only the word itself matches it. */
  lemma MatchesWhole(a: string, b: string, n: nat)
    requires |b| < n
    ensures SameFirst(a, b, n) <==> a == b
  {
  }

  /** Which keys match a field: four fields match in full only, the others also abbreviated. */
  lemma KeyMatches(key: string, f: Field)
    ensures f in Recognised(key) <==>
            match f
            case Type => key <= "type"
            case IpVersion => key <= "ip-version"
            case Threads => key == "threads"
            case Interface => key == "interface"
            case MapInterface => key == "map-interface"
            case Tunnel => key == "tunnel"
            case PeerIp => key <= "peer-ip"
            case NextHop => key <= "next-hop"
            case LocalIp => key <= "local-ip"
            case Cipher => key <= "cipher"
            case Secret => key <= "key"
            case Socket => key <= "socket"
            case Pipe => key <= "pipe"
            case Unknown => key <= "fips"
  {
    MatchesPrefix(key, KeyName(f));
    if f == Threads || f == Interface || f == MapInterface || f == Tunnel {
      MatchesWhole(key, KeyName(f), IFNAMSIZ);
    }
  }

  /** The place of a field's comparison in the program. */
  function Rank(f: Field): nat {
    match f
    case Type => 0
    case IpVersion => 1
    case Threads => 2
    case Interface => 3
    case MapInterface => 4
    case Tunnel => 5
    case PeerIp => 6
    case NextHop => 7
    case LocalIp => 8
    case Cipher => 9
    case Secret => 10
    case Socket => 11
    case Pipe => 12
    case Unknown => 13
  }

  lemma FirstHasLowestRank(fields: set<Field>, f: Field)
    ensures f in fields ==> Rank(FirstOf(fields)) <= Rank(f)
    ensures FirstOf(fields) in fields || FirstOf(fields) == Unknown
  {
  }

  /** The first field that matches is the one selected; if none does, nothing is stored. */
  lemma FirstMatchSelected(key: string, f: Field)
    ensures f in Recognised(key) ==> Rank(FieldOf(key)) <= Rank(f)
    ensures FieldOf(key) in Recognised(key) || FieldOf(key) == Unknown
  {
    var fields := Recognised(key);
    FirstHasLowestRank(fields, f);
  }

  /** The thirteen keys of a peer's entry. */
  lemma KeysSelectTheirFields()
    ensures FieldOf("type") == Type && FieldOf("ip-version") == IpVersion && FieldOf("threads") == Threads
    ensures FieldOf("interface") == Interface && FieldOf("map-interface") == MapInterface && FieldOf("tunnel") == Tunnel
    ensures FieldOf("peer-ip") == PeerIp && FieldOf("next-hop") == NextHop && FieldOf("local-ip") == LocalIp
    ensures FieldOf("cipher") == Cipher && FieldOf("key") == Secret
    ensures FieldOf("socket") == Socket && FieldOf("pipe") == Pipe
  {
    forall f: Field ensures FieldOf(KeyName(f)) == f {
      KeyNamesAreRecognised(f);
    }
    assert Type == FieldOf(KeyName(Type)) && IpVersion == FieldOf(KeyName(IpVersion));
    assert Threads == FieldOf(KeyName(Threads)) && Interface == FieldOf(KeyName(Interface));
    assert MapInterface == FieldOf(KeyName(MapInterface)) && Tunnel == FieldOf(KeyName(Tunnel));
    assert PeerIp == FieldOf(KeyName(PeerIp)) && NextHop == FieldOf(KeyName(NextHop));
    assert LocalIp == FieldOf(KeyName(LocalIp)) && Cipher == FieldOf(KeyName(Cipher));
    assert Secret == FieldOf(KeyName(Secret)) && Socket == FieldOf(KeyName(Socket)) && Pipe == FieldOf(KeyName(Pipe));
  }

  datatype Stored = Dies | Stores(peer: Peer)

  function TypeStored(p: Peer, value: string): Peer {
    if SameFirst(value, "ingress", |value|) then p.(direction := In)
    else if SameFirst(value, "egress", |value|) then p.(direction := Out)
    else if SameFirst(value, "map", |value|) then p.(direction := Map)
    else p
  }

  /** What the program does with one field. Dies: it exits with a message. */
  function StoreField(env: Env, p: Peer, f: Field, value: string): Stored
  {
    match f
    case Type => Stores(TypeStored(p, value))
    case IpVersion =>
      if SameFirst(value, "4", |value|) then Stores(p.(ipVersion := 4))
      else if SameFirst(value, "6", |value|) then Stores(p.(ipVersion := 6))
      else Dies
    case Threads => Stores(p.(threads := env.atoi(value)))
    case Interface => Stores(p.(area := CopyTo(p.area, IFNAME, value, COPIED)))
    case MapInterface => Stores(p.(area := CopyTo(p.area, IFMAP, value, COPIED), direction := Map))
    case Tunnel => Stores(p.(area := CopyTo(p.area, TIFNAME, value, COPIED)))
    case PeerIp =>
      if env.resolve(value) == 0 then Dies
      else Stores(p.(area := CopyTo(p.area, PEER_IP, value, COPIED), peerip := env.resolve(value)))
    case NextHop => Stores(p.(nextHop := Clip(value, COPIED)))
    case LocalIp => if env.resolve(value) == 0 then Dies else Stores(p.(myip := env.resolve(value)))
    case Cipher => Stores(p.(cipher := Clip(value, COPIED)))
    case Secret => Stores(p.(key := Clip(value, 16000)))
    case Socket => Stores(p.(socketPath := Clip(value, COPIED)))
    case Pipe => Stores(p.(pipePath := Clip(value, COPIED)))
    case Unknown => Stores(p)
  }

  /** The direction a type sets: the three words, also abbreviated, in the order of the program. */
  lemma TypeSets(env: Env, p: Peer, value: string)
    ensures StoreField(env, p, Type, value) ==
            Stores(p.(direction := if value <= "ingress" then In
                                   else if value <= "egress" then Out
                                   else if value <= "map" then Map
                                   else p.direction))
  {
    MatchesPrefix(value, "ingress");
    MatchesPrefix(value, "egress");
    MatchesPrefix(value, "map");
  }

  lemma IpVersionSets(env: Env, p: Peer, value: string)
    ensures StoreField(env, p, IpVersion, value) ==
            if value <= "4" then Stores(p.(ipVersion := 4))
            else if value <= "6" then Stores(p.(ipVersion := 6))
            else Dies
  {
    MatchesPrefix(value, "4");
    MatchesPrefix(value, "6");
  }

  /** A text's first n characters. */
  predicate Cut(r: string, value: string, n: nat) {
    r <= value && |r| == if |value| <= n then |value| else n
  }

  /** The other fields, of any length: each goes to its own place, cut off where strncpy stops. */
  lemma OthersSet(env: Env, p: Peer, f: Field, value: string)
    requires f in {Threads, NextHop, LocalIp, Cipher, Secret, Socket, Pipe, Unknown}
    ensures match StoreField(env, p, f, value)
            case Dies => f == LocalIp && env.resolve(value) == 0
            case Stores(q) =>
              match f
              case Threads => q == p.(threads := env.atoi(value))
              case NextHop => q == p.(nextHop := q.nextHop) && Cut(q.nextHop, value, 255)
              case LocalIp => q == p.(myip := env.resolve(value)) && q.myip != 0
              case Cipher => q == p.(cipher := q.cipher) && Cut(q.cipher, value, 255)
              case Secret => q == p.(key := q.key) && Cut(q.key, value, 16000)
              case Socket => q == p.(socketPath := q.socketPath) && Cut(q.socketPath, value, 255)
              case Pipe => q == p.(pipePath := q.pipePath) && Cut(q.pipePath, value, 255)
              case _ => q == p
  {
  }

  /** The names: 255 characters from the start of the buffer are written, NULs behind the value. */
  lemma NamesSet(env: Env, p: Peer, f: Field, value: string)
    requires f in {Interface, Tunnel, MapInterface, PeerIp}
    ensures match StoreField(env, p, f, value)
            case Dies => f == PeerIp && env.resolve(value) == 0
            case Stores(q) =>
              && q == p.(area := q.area,
                         direction := if f == MapInterface then Map else p.direction,
                         peerip := if f == PeerIp then env.resolve(value) else p.peerip)
              && (f == PeerIp ==> q.peerip != 0)
              && forall k :: 0 <= k < 304 ==>
                   q.area[k] == var at := 16 * MemoryOrder(f);
                                if k < at || at + 255 <= k then p.area[k]
                                else if k - at < |value| then value[k - at]
                                else '\0'
  {
    PlacesInOrder(f, f);
  }

  // ----- Reading a record back -----

  datatype Setting = Setting(field: Field, value: string)

  /** The settings of an entry, stored one after the other. */
  function StoreAll(env: Env, p: Peer, settings: seq<Setting>): (r: Stored)
    ensures r.Stores? ==> r.peer.id == p.id && r.peer.name == p.name
    decreases |settings|
  {
    if settings == [] then Stores(p)
    else
      match StoreField(env, p, settings[0].field, settings[0].value)
      case Dies => Dies
      case Stores(q) => StoreAll(env, q, settings[1..])
  }

  predicate Resolvable(env: Env, s: Setting) {
    match s.field
    case IpVersion => s.value <= "4" || s.value <= "6"
    case PeerIp => env.resolve(s.value) != 0
    case LocalIp => env.resolve(s.value) != 0
    case _ => true
  }

  /** The program gives up exactly on an address it cannot resolve or an IP version not 4 or 6. */
  lemma {:induction false} DiesExactlyWhen(env: Env, p: Peer, settings: seq<Setting>)
    ensures StoreAll(env, p, settings).Dies? <==> exists i :: 0 <= i < |settings| && !Resolvable(env, settings[i])
    decreases |settings|
  {
    if settings != [] {
      var first := StoreField(env, p, settings[0].field, settings[0].value);
      IpVersionSets(env, p, settings[0].value);
      if first.Stores? {
        DiesExactlyWhen(env, first.peer, settings[1..]);
        assert forall i :: 0 < i < |settings| ==> settings[i] == settings[1..][i - 1];
      } else {
        assert !Resolvable(env, settings[0]);
      }
    }
  }

  /** Where a field's text lies in the area. */
  function Place(f: Field): int {
    match f
    case Interface => IFNAME
    case Tunnel => TIFNAME
    case MapInterface => IFMAP
    case PeerIp => PEER_IP
    case _ => -1
  }

  predicate IsText(f: Field) {
    Place(f) >= 0
  }

  /** A value that its buffer holds with its terminator. */
  predicate FitsBuffer(s: Setting) {
    && (forall k :: 0 <= k < |s.value| ==> s.value[k] != '\0')
    && (match s.field
        case PeerIp => |s.value| < COPIED
        case Secret => |s.value| < 16000
        case _ => if IsText(s.field) then |s.value| < IFNAMSIZ else |s.value| < COPIED)
  }

  /** The record shows the setting. */
  predicate Shows(env: Env, p: Peer, s: Setting) {
    match s.field
    case Type =>
      if s.value <= "ingress" then p.direction == In
      else if s.value <= "egress" then p.direction == Out
      else s.value <= "map" ==> p.direction == Map
    case IpVersion => p.ipVersion == if s.value <= "4" then 4 else 6
    case Threads => p.threads == env.atoi(s.value)
    case Interface => CString(p.area, IFNAME) == s.value
    case MapInterface => CString(p.area, IFMAP) == s.value
    case Tunnel => CString(p.area, TIFNAME) == s.value
    case PeerIp => CString(p.area, PEER_IP) == s.value && p.peerip == env.resolve(s.value)
    case NextHop => p.nextHop == s.value
    case LocalIp => p.myip == env.resolve(s.value)
    case Cipher => p.cipher == s.value
    case Secret => p.key == s.value
    case Socket => p.socketPath == s.value
    case Pipe => p.pipePath == s.value
    case Unknown => true
  }

  /**
   * Storing g after f spoils f: the same field again; or a name whose padding runs over f's
   * buffer, because it lies in front of it; or a map interface, which sets the direction.
   */
  predicate Spoils(g: Field, f: Field) {
    || (f != Unknown && g == f)
    || (IsText(g) && IsText(f) && Place(g) < Place(f))
    || (g == MapInterface && f == Type)
  }

  lemma {:induction false} CStringOf(area: string, at: nat, v: string)
    requires at + |v| < |area|
    requires area[at..at + |v|] == v && area[at + |v|] == '\0'
    requires forall k :: 0 <= k < |v| ==> v[k] != '\0'
    ensures CString(area, at) == v
    decreases |v|
  {
    if v != "" {
      assert area[at] == area[at..at + |v|][0] == v[0];
      assert area[at + 1..at + 1 + |v[1..]|] == area[at..at + |v|][1..] == v[1..];
      CStringOf(area, at + 1, v[1..]);
    }
  }

  /** Right after a copy that fits, the string is there; buffers behind it read as empty. */
  lemma CopyShows(area: string, at: nat, v: string, behind: nat)
    requires at + COPIED <= |area| && |v| < COPIED
    requires forall k :: 0 <= k < |v| ==> v[k] != '\0'
    requires at + |v| <= behind < at + COPIED
    ensures CString(CopyTo(area, at, v, COPIED), at) == v
    ensures CString(CopyTo(area, at, v, COPIED), behind) == ""
  {
    var r := CopyTo(area, at, v, COPIED);
    assert r[at..at + |v|] == v;
    assert r[at + |v|] == '\0';
    CStringOf(r, at, v);
    assert r[behind] == '\0';
  }

  /** A string that ends before a later copy begins is not touched by it. */
  lemma {:induction false} CopyBehind(area: string, at: nat, v: string, front: nat)
    requires at + COPIED <= |area| && front + |CString(area, front)| < at
    ensures CString(CopyTo(area, at, v, COPIED), front) == CString(area, front)
    decreases |CString(area, front)|
  {
    var r := CopyTo(area, at, v, COPIED);
    assert r[front] == area[front];
    if area[front] != '\0' {
      CopyBehind(area, at, v, front + 1);
    }
  }

  lemma StoredShows(env: Env, p: Peer, s: Setting)
    requires FitsBuffer(s) && Resolvable(env, s)
    ensures StoreField(env, p, s.field, s.value).Stores?
    ensures Shows(env, StoreField(env, p, s.field, s.value).peer, s)
  {
    TypeSets(env, p, s.value);
    IpVersionSets(env, p, s.value);
    if IsText(s.field) {
      CopyShows(p.area, Place(s.field), s.value, Place(s.field) + |s.value|);
    }
  }

  lemma UnspoiledStaysShown(env: Env, p: Peer, s: Setting, later: Setting)
    requires FitsBuffer(s) && Shows(env, p, s) && !Spoils(later.field, s.field)
    requires StoreField(env, p, later.field, later.value).Stores?
    ensures Shows(env, StoreField(env, p, later.field, later.value).peer, s)
  {
    if IsText(s.field) && IsText(later.field) {
      CopyBehind(p.area, Place(later.field), later.value, Place(s.field));
    }
  }

  lemma {:induction false} ShownUntilSpoiled(env: Env, p: Peer, s: Setting, rest: seq<Setting>)
    requires FitsBuffer(s) && Shows(env, p, s)
    requires forall i :: 0 <= i < |rest| ==> !Spoils(rest[i].field, s.field)
    requires StoreAll(env, p, rest).Stores?
    ensures Shows(env, StoreAll(env, p, rest).peer, s)
    decreases |rest|
  {
    if rest != [] {
      UnspoiledStaysShown(env, p, s, rest[0]);
      ShownUntilSpoiled(env, StoreField(env, p, rest[0].field, rest[0].value).peer, s, rest[1..]);
    }
  }

  lemma {:induction false} StoreAllSplits(env: Env, p: Peer, front: seq<Setting>, back: seq<Setting>)
    requires StoreAll(env, p, front + back).Stores?
    ensures StoreAll(env, p, front).Stores?
    ensures StoreAll(env, p, front + back) == StoreAll(env, StoreAll(env, p, front).peer, back)
    decreases |front|
  {
    if front == [] {
      assert front + back == back;
    } else {
      assert (front + back)[1..] == front[1..] + back;
      StoreAllSplits(env, StoreField(env, p, front[0].field, front[0].value).peer, front[1..], back);
    }
  }

  /** A setting that fits and is not spoiled by a later one can be read back from the record. */
  lemma UnspoiledReadsBack(env: Env, p: Peer, settings: seq<Setting>, i: nat)
    requires i < |settings| && FitsBuffer(settings[i])
    requires StoreAll(env, p, settings).Stores?
    requires forall j :: i < j < |settings| ==> !Spoils(settings[j].field, settings[i].field)
    ensures Shows(env, StoreAll(env, p, settings).peer, settings[i])
  {
    DiesExactlyWhen(env, p, settings);
    var front, s, back := settings[..i], settings[i], settings[i + 1..];
    assert settings == front + ([s] + back);
    StoreAllSplits(env, p, front, [s] + back);
    var q := StoreAll(env, p, front).peer;
    assert ([s] + back)[1..] == back;
    StoredShows(env, q, s);
    ShownUntilSpoiled(env, StoreField(env, q, s.field, s.value).peer, s, back);
  }

  /** The last later setting that spoils setting i, or i itself. */
  function LastSpoiler(settings: seq<Setting>, i: nat, n: nat): (j: nat)
    requires i < n <= |settings|
    ensures i <= j < n
    ensures j != i ==> Spoils(settings[j].field, settings[i].field)
    ensures forall k :: j < k < n ==> !Spoils(settings[k].field, settings[i].field)
  {
    if n - 1 == i then i
    else if Spoils(settings[n - 1].field, settings[i].field) then n - 1
    else LastSpoiler(settings, i, n - 1)
  }

  /** A text that is in place stays until something spoils it. */
  lemma {:induction false} TextKept(env: Env, p: Peer, f: Field, v: string, rest: seq<Setting>)
    requires IsText(f) && CString(p.area, Place(f)) == v
    requires |v| < IFNAMSIZ || f == PeerIp
    requires forall i :: 0 <= i < |rest| ==> !Spoils(rest[i].field, f)
    requires StoreAll(env, p, rest).Stores?
    ensures CString(StoreAll(env, p, rest).peer.area, Place(f)) == v
    decreases |rest|
  {
    if rest != [] {
      if IsText(rest[0].field) {
        CopyBehind(p.area, Place(rest[0].field), rest[0].value, Place(f));
      }
      TextKept(env, StoreField(env, p, rest[0].field, rest[0].value).peer, f, v, rest[1..]);
    }
  }

  /**
   * What a text buffer reads in the end, in any order of settings: the value of the last
   * setting that spoils it if that is the same key again, and nothing if it is another key,
   * whose padding has wiped the buffer out.
   */
  lemma {:induction false} TextIsLastSpoilers(env: Env, p: Peer, settings: seq<Setting>, i: nat)
    requires i < |settings| && IsText(settings[i].field)
    requires forall k :: i <= k < |settings| && IsText(settings[k].field) ==> FitsBuffer(settings[k])
    requires StoreAll(env, p, settings).Stores?
    ensures var last, f := settings[LastSpoiler(settings, i, |settings|)], settings[i].field;
            CString(StoreAll(env, p, settings).peer.area, Place(f)) == if last.field == f then last.value else ""
  {
    var j, f := LastSpoiler(settings, i, |settings|), settings[i].field;
    assert settings == settings[..j] + settings[j..];
    StoreAllSplits(env, p, settings[..j], settings[j..]);
    assert settings[j..][0] == settings[j];
    forall k | 1 <= k < |settings[j..]| ensures !Spoils(settings[j..][k].field, f) {
      assert settings[j..][k] == settings[j + k];
    }
    TextAfterSpoiler(env, StoreAll(env, p, settings[..j]).peer, f, settings[j..]);
  }

  lemma TextAfterSpoiler(env: Env, p: Peer, f: Field, settings: seq<Setting>)
    requires IsText(f) && settings != []
    requires var s := settings[0]; IsText(s.field) && FitsBuffer(s) && (s.field == f || Spoils(s.field, f))
    requires forall i :: 1 <= i < |settings| ==> !Spoils(settings[i].field, f)
    requires StoreAll(env, p, settings).Stores?
    ensures CString(StoreAll(env, p, settings).peer.area, Place(f)) ==
            if settings[0].field == f then settings[0].value else ""
  {
    var s := settings[0];
    CopyShows(p.area, Place(s.field), s.value, if s.field == f then Place(f) + |s.value| else Place(f));
    var q := StoreField(env, p, s.field, s.value).peer;
    TextKept(env, q, f, if s.field == f then s.value else "", settings[1..]);
  }

  /** ifname, tifname, ifmap and peer_ip in the order in which the record declares them. */
  function MemoryOrder(f: Field): int {
    match f
    case Interface => 0
    case Tunnel => 1
    case MapInterface => 2
    case PeerIp => 3
    case _ => -1
  }

  lemma PlacesInOrder(f: Field, g: Field)
    ensures IsText(f) <==> MemoryOrder(f) >= 0
    ensures IsText(f) && IsText(g) ==> (Place(f) < Place(g) <==> MemoryOrder(f) < MemoryOrder(g))
    ensures IsText(f) ==> Place(f) == 16 * MemoryOrder(f)
  {
  }

  /** What the record shows in the buffer of a name. */
  function TextOf(p: Peer, f: Field): string
    requires MemoryOrder(f) >= 0
  {
    CString(p.area, Place(f))
  }

  /**
   * Of two neighbouring or farther names, the one stored first survives exactly if it lies in
   * front: storing a name wipes out those in the buffers behind it.
   */
  lemma LaterNameWipesThoseBehind(env: Env, p: Peer, first: Setting, second: Setting)
    requires MemoryOrder(first.field) >= 0 && MemoryOrder(second.field) >= 0 && first.field != second.field
    requires FitsBuffer(first) && FitsBuffer(second)
    requires StoreAll(env, p, [first, second]).Stores?
    ensures var q := StoreAll(env, p, [first, second]).peer;
            && TextOf(q, second.field) == second.value
            && TextOf(q, first.field) ==
               if MemoryOrder(first.field) < MemoryOrder(second.field) then first.value else ""
  {
    PlacesInOrder(first.field, second.field);
    PlacesInOrder(second.field, first.field);
    TextIsLastSpoilers(env, p, [first, second], 0);
    TextIsLastSpoilers(env, p, [first, second], 1);
  }

  /** A map interface makes the peer a map until a later type says otherwise. */
  lemma {:induction false} MapUntilType(env: Env, p: Peer, settings: seq<Setting>)
    requires forall i :: 0 <= i < |settings| ==> settings[i].field != Type
    requires p.direction == Map || exists i :: 0 <= i < |settings| && settings[i].field == MapInterface
    requires StoreAll(env, p, settings).Stores?
    ensures StoreAll(env, p, settings).peer.direction == Map
    decreases |settings|
  {
    if settings != [] {
      var q := StoreField(env, p, settings[0].field, settings[0].value).peer;
      if settings[0].field != MapInterface && p.direction != Map {
        var i :| 0 <= i < |settings| && settings[i].field == MapInterface;
        assert settings[1..][i - 1].field == MapInterface;
      }
      MapUntilType(env, q, settings[1..]);
    }
  }

  /** And a direction that a type has set stays until a later type or map interface. */
  lemma {:induction false} DirectionStays(env: Env, p: Peer, settings: seq<Setting>)
    requires forall i :: 0 <= i < |settings| ==> settings[i].field != Type && settings[i].field != MapInterface
    requires StoreAll(env, p, settings).Stores?
    ensures StoreAll(env, p, settings).peer.direction == p.direction
    decreases |settings|
  {
    if settings != [] {
      DirectionStays(env, StoreField(env, p, settings[0].field, settings[0].value).peer, settings[1..]);
    }
  }

  /** Different settings are for different fields. */
  predicate EachOnce(settings: seq<Setting>) {
    forall i, j :: 0 <= i < j < |settings| ==> settings[i].field != settings[j].field
  }

  /** Interface, tunnel, map interface and peer address come in the order of their buffers. */
  predicate InBufferOrder(settings: seq<Setting>) {
    forall i, j :: 0 <= i < j < |settings| && IsText(settings[i].field) && IsText(settings[j].field) ==>
      Place(settings[i].field) < Place(settings[j].field)
  }

  predicate TextsReadBack(p: Peer, settings: seq<Setting>) {
    forall i :: 0 <= i < |settings| && IsText(settings[i].field) ==>
      CString(p.area, Place(settings[i].field)) == settings[i].value
  }

  /** In buffer order no setting is spoiled by a later one; in any other order some setting is. */
  lemma OrderedMeansUnspoiled(settings: seq<Setting>)
    requires EachOnce(settings)
    ensures InBufferOrder(settings) <==>
            forall i :: 0 <= i < |settings| && IsText(settings[i].field) ==> LastSpoiler(settings, i, |settings|) == i
  {
    if InBufferOrder(settings) {
      forall i | 0 <= i < |settings| && IsText(settings[i].field)
        ensures LastSpoiler(settings, i, |settings|) == i
      {
        forall k | i < k < |settings| ensures !Spoils(settings[k].field, settings[i].field) {
          assert settings[k].field != settings[i].field;
        }
      }
    } else {
      var i, j :| 0 <= i < j < |settings| && IsText(settings[i].field) && IsText(settings[j].field)
                  && Place(settings[i].field) >= Place(settings[j].field);
      assert settings[i].field != settings[j].field;
      assert Spoils(settings[j].field, settings[i].field);
      assert LastSpoiler(settings, i, |settings|) != i;
    }
  }

  lemma ReadsBackIffUnspoiled(env: Env, p: Peer, settings: seq<Setting>, i: nat)
    requires EachOnce(settings) && StoreAll(env, p, settings).Stores?
    requires i < |settings| && IsText(settings[i].field) && settings[i].value != ""
    requires forall k :: 0 <= k < |settings| && IsText(settings[k].field) ==> FitsBuffer(settings[k])
    ensures CString(StoreAll(env, p, settings).peer.area, Place(settings[i].field)) == settings[i].value <==>
            LastSpoiler(settings, i, |settings|) == i
  {
    TextIsLastSpoilers(env, p, settings, i);
    var j := LastSpoiler(settings, i, |settings|);
    assert j == i || settings[i].field != settings[j].field;
  }

  /**
   * Exactly which orders of keys work. An entry gives each key at most once, with names that
   * are not empty and fit their buffers. Then the record shows all of them if and only if
   * they come in the order of the buffers in memory.
   */
  lemma OrderMatters(env: Env, p: Peer, settings: seq<Setting>)
    requires EachOnce(settings) && StoreAll(env, p, settings).Stores?
    requires forall i :: 0 <= i < |settings| && IsText(settings[i].field) ==>
               FitsBuffer(settings[i]) && settings[i].value != ""
    ensures TextsReadBack(StoreAll(env, p, settings).peer, settings) <==> InBufferOrder(settings)
  {
    forall i | 0 <= i < |settings| && IsText(settings[i].field)
      ensures CString(StoreAll(env, p, settings).peer.area, Place(settings[i].field)) == settings[i].value <==>
              LastSpoiler(settings, i, |settings|) == i
    {
      ReadsBackIffUnspoiled(env, p, settings, i);
    }
    OrderedMeansUnspoiled(settings);
  }
}
