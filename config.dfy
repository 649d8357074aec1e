/**
 * The configuration store of src/Properties.ts: the closed table of property
 * keys, the parse of a `key=value` file into a typed, insertion-ordered map,
 * the textual substitution that writes one key back, and the store object
 * that holds the map, the text read at construction and the last text it
 * wrote.
 */
module Config {
  import opened Wrappers
  import opened Text

  // ---------------------------------------------------------------------
  // The Property enumeration: member names and wire strings
  // ---------------------------------------------------------------------

  /** The members of the `Property` enumeration, in declaration order. */
  datatype Property =
    | ServerName
    | Gamemode
    | ForceGamdemode
    | Difficulty
    | AllowCheats
    | MaxPlayers
    | OnlineMode
    | AllowList
    | ServerPort
    | ServerPortV6
    | EnableLanVisibility
    | ViewDistance
    | TickDistance
    | PlayerIdleTimeout
    | MaxThreads
    | LevelName
    | LevelSeed
    | DefaultPlayerPermissionLevel
    | TexturepackRequired
    | ContentLogFileEnabled
    | CompressionThreshold
    | CompressionAlgorithm
    | ServerAuthoritativeMovement
    | PlayerMovementScoreThreshold
    | PlayerMovementActionDirectionThreshold
    | PlayerMovementDistanceThreshold
    | PlayerMovementDurationThresholdInMs
    | CorrectPlayerMovement
    | ServerAuthoritativeBlockBreaking
    | ChatRestriction
    | DisablePlayerInteraction
    | ClientSideChunkGenerationEnabled
    | BlockNetworkIdsAreHashes
    | DisablePersona
    | DisableCustomSkins
    | ServerBuildRadiusRatio

  /** The string a member stands for: the key as it appears in the file. */
  function Wire(p: Property): string {
    match p
    case ServerName => "server-name"
    case Gamemode => "gamemode"
    case ForceGamdemode => "force-gamemode"
    case Difficulty => "difficulty"
    case AllowCheats => "allow-cheats"
    case MaxPlayers => "max-players"
    case OnlineMode => "online-mode"
    case AllowList => "allow-list"
    case ServerPort => "server-port"
    case ServerPortV6 => "server-portv6"
    case EnableLanVisibility => "enable-lan-visibility"
    case ViewDistance => "view-distance"
    case TickDistance => "tick-distance"
    case PlayerIdleTimeout => "player-idle-timeout"
    case MaxThreads => "max-threads"
    case LevelName => "level-name"
    case LevelSeed => "level-seed"
    case DefaultPlayerPermissionLevel => "default-player-permission-level"
    case TexturepackRequired => "texturepack-required"
    case ContentLogFileEnabled => "content-log-file-enabled"
    case CompressionThreshold => "compression-threshold"
    case CompressionAlgorithm => "compression-algorithm"
    case ServerAuthoritativeMovement => "server-authoritative-movement"
    case PlayerMovementScoreThreshold => "player-movement-score-threshold"
    case PlayerMovementActionDirectionThreshold => "player-movement-action-direction-threshold"
    case PlayerMovementDistanceThreshold => "player-movement-distance-threshold"
    case PlayerMovementDurationThresholdInMs => "player-movement-duration-threshold-in-ms"
    case CorrectPlayerMovement => "correct-player-movement"
    case ServerAuthoritativeBlockBreaking => "server-authoritative-block-breaking"
    case ChatRestriction => "chat-restriction"
    case DisablePlayerInteraction => "disable-player-interaction"
    case ClientSideChunkGenerationEnabled => "client-side-chunk-generation-enabled"
    case BlockNetworkIdsAreHashes => "block-network-ids-are-hashes"
    case DisablePersona => "disable-persona"
    case DisableCustomSkins => "disable-custom-skins"
    case ServerBuildRadiusRatio => "server-build-radius-ratio"
  }

  /** The member's name, as `Object.keys(Property)` lists it. */
  function Name(p: Property): string {
    match p
    case ServerName => "ServerName"
    case Gamemode => "Gamemode"
    case ForceGamdemode => "ForceGamdemode"
    case Difficulty => "Difficulty"
    case AllowCheats => "AllowCheats"
    case MaxPlayers => "MaxPlayers"
    case OnlineMode => "OnlineMode"
    case AllowList => "AllowList"
    case ServerPort => "ServerPort"
    case ServerPortV6 => "ServerPortV6"
    case EnableLanVisibility => "EnableLanVisibility"
    case ViewDistance => "ViewDistance"
    case TickDistance => "TickDistance"
    case PlayerIdleTimeout => "PlayerIdleTimeout"
    case MaxThreads => "MaxThreads"
    case LevelName => "LevelName"
    case LevelSeed => "LevelSeed"
    case DefaultPlayerPermissionLevel => "DefaultPlayerPermissionLevel"
    case TexturepackRequired => "TexturepackRequired"
    case ContentLogFileEnabled => "ContentLogFileEnabled"
    case CompressionThreshold => "CompressionThreshold"
    case CompressionAlgorithm => "CompressionAlgorithm"
    case ServerAuthoritativeMovement => "ServerAuthoritativeMovement"
    case PlayerMovementScoreThreshold => "PlayerMovementScoreThreshold"
    case PlayerMovementActionDirectionThreshold => "PlayerMovementActionDirectionThreshold"
    case PlayerMovementDistanceThreshold => "PlayerMovementDistanceThreshold"
    case PlayerMovementDurationThresholdInMs => "PlayerMovementDurationThresholdInMs"
    case CorrectPlayerMovement => "CorrectPlayerMovement"
    case ServerAuthoritativeBlockBreaking => "ServerAuthoritativeBlockBreaking"
    case ChatRestriction => "ChatRestriction"
    case DisablePlayerInteraction => "DisablePlayerInteraction"
    case ClientSideChunkGenerationEnabled => "ClientSideChunkGenerationEnabled"
    case BlockNetworkIdsAreHashes => "BlockNetworkIdsAreHashes"
    case DisablePersona => "DisablePersona"
    case DisableCustomSkins => "DisableCustomSkins"
    case ServerBuildRadiusRatio => "ServerBuildRadiusRatio"
  }

  /** `Object.keys(Property)`: the members in declaration order. */
  const Members: seq<Property> := [
    ServerName,
    Gamemode,
    ForceGamdemode,
    Difficulty,
    AllowCheats,
    MaxPlayers,
    OnlineMode,
    AllowList,
    ServerPort,
    ServerPortV6,
    EnableLanVisibility,
    ViewDistance,
    TickDistance,
    PlayerIdleTimeout,
    MaxThreads,
    LevelName,
    LevelSeed,
    DefaultPlayerPermissionLevel,
    TexturepackRequired,
    ContentLogFileEnabled,
    CompressionThreshold,
    CompressionAlgorithm,
    ServerAuthoritativeMovement,
    PlayerMovementScoreThreshold,
    PlayerMovementActionDirectionThreshold,
    PlayerMovementDistanceThreshold,
    PlayerMovementDurationThresholdInMs,
    CorrectPlayerMovement,
    ServerAuthoritativeBlockBreaking,
    ChatRestriction,
    DisablePlayerInteraction,
    ClientSideChunkGenerationEnabled,
    BlockNetworkIdsAreHashes,
    DisablePersona,
    DisableCustomSkins,
    ServerBuildRadiusRatio
  ]

  /** The first member of `ps` whose wire string is `w`: `Object.keys(Property).find(...)`. */
  function Find(ps: seq<Property>, w: string): (r: Option<Property>)
    ensures r.Some? ==> r.value in ps && Wire(r.value) == w
    ensures r.None? ==> forall p :: p in ps ==> Wire(p) != w
    decreases |ps|
  {
    if ps == [] then None
    else if Wire(ps[0]) == w then Some(ps[0])
    else Find(ps[1..], w)
  }

  /** The member name reported for a stored key, absent when no member has that wire string. */
  function MemberName(w: string): Option<string> {
    match Find(Members, w)
    case None => None
    case Some(p) => Some(Name(p))
  }

  /**
   * A number computed from a wire string's length, its last two characters
   * and its fourth character; the 36 wire strings have 36 different ones.
   */
  function Fingerprint(w: string): int {
    if |w| < 4 then 0 else ((|w| * 128 + w[|w| - 1] as int) * 128 + w[|w| - 2] as int) * 128 + w[3] as int
  }

  /** The member whose wire string has fingerprint `f`. */
  function MemberOf(f: int): Property {
    if f == 24737526 then ServerName
    else if f == 18444901 then Gamemode
    else if f == 31027811 then ForceGamdemode
    else if f == 22968934 then Difficulty
    else if f == 27064943 then AllowCheats
    else if f == 24967469 then MaxPlayers
    else if f == 24736361 then OnlineMode
    else if f == 22886895 then AllowList
    else if f == 24983926 then ServerPort
    else if f == 28162934 then ServerPortV6
    else if f == 46037602 then EnableLanVisibility
    else if f == 28930551 then ViewDistance
    else if f == 28930539 then TickDistance
    else if f == 41761529 then PlayerIdleTimeout
    else if f == 24965677 then MaxThreads
    else if f == 22640357 then LevelName
    else if f == 22622949 then LevelSeed
    else if f == 66794209 then DefaultPlayerPermissionLevel
    else if f == 43594484 then TexturepackRequired
    else if f == 51983092 then ContentLogFileEnabled
    else if f == 45692528 then CompressionThreshold
    else if f == 45839472 then CompressionAlgorithm
    else if f == 62732150 then ServerAuthoritativeMovement
    else if f == 66664057 then PlayerMovementScoreThreshold
    else if f == 89732729 then PlayerMovementActionDirectionThreshold
    else if f == 72955513 then PlayerMovementDistanceThreshold
    else if f == 85784313 then PlayerMovementDurationThresholdInMs
    else if f == 50149234 then CorrectPlayerMovement
    else if f == 75102070 then ServerAuthoritativeBlockBreaking
    else if f == 35370996 then ChatRestriction
    else if f == 56342497 then DisablePlayerInteraction
    else if f == 77148901 then ClientSideChunkGenerationEnabled
    else if f == 60617443 then BlockNetworkIdsAreHashes
    else if f == 33060705 then DisablePersona
    else if f == 43841377 then DisableCustomSkins
    else if f == 54260982 then ServerBuildRadiusRatio
    else ServerName
  }

  // MemberOf inverts Fingerprint on every wire string, checked a few members at a time.
  // Unfolding Find over the 36 literal wire strings directly costs the verifier
  // far more than its resource limit for the later members, so the lookup is
  // reached through the fingerprint instead.

  lemma MemberOfWireGroup0()
    ensures MemberOf(Fingerprint(Wire(ServerName))) == ServerName
    ensures MemberOf(Fingerprint(Wire(Gamemode))) == Gamemode
    ensures MemberOf(Fingerprint(Wire(ForceGamdemode))) == ForceGamdemode
    ensures MemberOf(Fingerprint(Wire(Difficulty))) == Difficulty
  {
  }

  lemma MemberOfWireGroup1()
    ensures MemberOf(Fingerprint(Wire(AllowCheats))) == AllowCheats
    ensures MemberOf(Fingerprint(Wire(MaxPlayers))) == MaxPlayers
    ensures MemberOf(Fingerprint(Wire(OnlineMode))) == OnlineMode
    ensures MemberOf(Fingerprint(Wire(AllowList))) == AllowList
  {
  }

  lemma MemberOfWireGroup2()
    ensures MemberOf(Fingerprint(Wire(ServerPort))) == ServerPort
    ensures MemberOf(Fingerprint(Wire(ServerPortV6))) == ServerPortV6
    ensures MemberOf(Fingerprint(Wire(EnableLanVisibility))) == EnableLanVisibility
  {
  }

  lemma MemberOfWireGroup3()
    ensures MemberOf(Fingerprint(Wire(ViewDistance))) == ViewDistance
    ensures MemberOf(Fingerprint(Wire(TickDistance))) == TickDistance
    ensures MemberOf(Fingerprint(Wire(PlayerIdleTimeout))) == PlayerIdleTimeout
  {
  }

  lemma MemberOfWireGroup4()
    ensures MemberOf(Fingerprint(Wire(MaxThreads))) == MaxThreads
    ensures MemberOf(Fingerprint(Wire(LevelName))) == LevelName
    ensures MemberOf(Fingerprint(Wire(LevelSeed))) == LevelSeed
  {
  }

  lemma MemberOfWireGroup5()
    ensures MemberOf(Fingerprint(Wire(DefaultPlayerPermissionLevel))) == DefaultPlayerPermissionLevel
    ensures MemberOf(Fingerprint(Wire(TexturepackRequired))) == TexturepackRequired
  {
  }

  lemma MemberOfWireGroup6()
    ensures MemberOf(Fingerprint(Wire(ContentLogFileEnabled))) == ContentLogFileEnabled
    ensures MemberOf(Fingerprint(Wire(CompressionThreshold))) == CompressionThreshold
  {
  }

  lemma MemberOfWireGroup7()
    ensures MemberOf(Fingerprint(Wire(CompressionAlgorithm))) == CompressionAlgorithm
  {
  }

  lemma MemberOfWireGroup8()
    ensures MemberOf(Fingerprint(Wire(ServerAuthoritativeMovement))) == ServerAuthoritativeMovement
  {
  }

  lemma MemberOfWireGroup9()
    ensures MemberOf(Fingerprint(Wire(PlayerMovementScoreThreshold))) == PlayerMovementScoreThreshold
  {
  }

  lemma MemberOfWireGroup10()
    ensures MemberOf(Fingerprint(Wire(PlayerMovementActionDirectionThreshold))) == PlayerMovementActionDirectionThreshold
  {
  }

  lemma MemberOfWireGroup11()
    ensures MemberOf(Fingerprint(Wire(PlayerMovementDistanceThreshold))) == PlayerMovementDistanceThreshold
  {
  }

  lemma MemberOfWireGroup12()
    ensures MemberOf(Fingerprint(Wire(PlayerMovementDurationThresholdInMs))) == PlayerMovementDurationThresholdInMs
  {
  }

  lemma MemberOfWireGroup13()
    ensures MemberOf(Fingerprint(Wire(CorrectPlayerMovement))) == CorrectPlayerMovement
  {
  }

  lemma MemberOfWireGroup14()
    ensures MemberOf(Fingerprint(Wire(ServerAuthoritativeBlockBreaking))) == ServerAuthoritativeBlockBreaking
  {
  }

  lemma MemberOfWireGroup15()
    ensures MemberOf(Fingerprint(Wire(ChatRestriction))) == ChatRestriction
  {
  }

  lemma MemberOfWireGroup16()
    ensures MemberOf(Fingerprint(Wire(DisablePlayerInteraction))) == DisablePlayerInteraction
  {
  }

  lemma MemberOfWireGroup17()
    ensures MemberOf(Fingerprint(Wire(ClientSideChunkGenerationEnabled))) == ClientSideChunkGenerationEnabled
  {
  }

  lemma MemberOfWireGroup18()
    ensures MemberOf(Fingerprint(Wire(BlockNetworkIdsAreHashes))) == BlockNetworkIdsAreHashes
  {
  }

  lemma MemberOfWireGroup19()
    ensures MemberOf(Fingerprint(Wire(DisablePersona))) == DisablePersona
  {
  }

  lemma MemberOfWireGroup20()
    ensures MemberOf(Fingerprint(Wire(DisableCustomSkins))) == DisableCustomSkins
  {
  }

  lemma MemberOfWireGroup21()
    ensures MemberOf(Fingerprint(Wire(ServerBuildRadiusRatio))) == ServerBuildRadiusRatio
  {
  }

  /** A member is recovered from its wire string's fingerprint. */
  lemma MemberOfWire(p: Property)
    ensures MemberOf(Fingerprint(Wire(p))) == p
  {
    match p
    case ServerName => MemberOfWireGroup0();
    case Gamemode => MemberOfWireGroup0();
    case ForceGamdemode => MemberOfWireGroup0();
    case Difficulty => MemberOfWireGroup0();
    case AllowCheats => MemberOfWireGroup1();
    case MaxPlayers => MemberOfWireGroup1();
    case OnlineMode => MemberOfWireGroup1();
    case AllowList => MemberOfWireGroup1();
    case ServerPort => MemberOfWireGroup2();
    case ServerPortV6 => MemberOfWireGroup2();
    case EnableLanVisibility => MemberOfWireGroup2();
    case ViewDistance => MemberOfWireGroup3();
    case TickDistance => MemberOfWireGroup3();
    case PlayerIdleTimeout => MemberOfWireGroup3();
    case MaxThreads => MemberOfWireGroup4();
    case LevelName => MemberOfWireGroup4();
    case LevelSeed => MemberOfWireGroup4();
    case DefaultPlayerPermissionLevel => MemberOfWireGroup5();
    case TexturepackRequired => MemberOfWireGroup5();
    case ContentLogFileEnabled => MemberOfWireGroup6();
    case CompressionThreshold => MemberOfWireGroup6();
    case CompressionAlgorithm => MemberOfWireGroup7();
    case ServerAuthoritativeMovement => MemberOfWireGroup8();
    case PlayerMovementScoreThreshold => MemberOfWireGroup9();
    case PlayerMovementActionDirectionThreshold => MemberOfWireGroup10();
    case PlayerMovementDistanceThreshold => MemberOfWireGroup11();
    case PlayerMovementDurationThresholdInMs => MemberOfWireGroup12();
    case CorrectPlayerMovement => MemberOfWireGroup13();
    case ServerAuthoritativeBlockBreaking => MemberOfWireGroup14();
    case ChatRestriction => MemberOfWireGroup15();
    case DisablePlayerInteraction => MemberOfWireGroup16();
    case ClientSideChunkGenerationEnabled => MemberOfWireGroup17();
    case BlockNetworkIdsAreHashes => MemberOfWireGroup18();
    case DisablePersona => MemberOfWireGroup19();
    case DisableCustomSkins => MemberOfWireGroup20();
    case ServerBuildRadiusRatio => MemberOfWireGroup21();
  }

  /** Every member is in `Members`. */
  lemma Listed(p: Property)
    ensures p in Members
  {
    match p
    case ServerName => assert Members[0] == ServerName;
    case Gamemode => assert Members[1] == Gamemode;
    case ForceGamdemode => assert Members[2] == ForceGamdemode;
    case Difficulty => assert Members[3] == Difficulty;
    case AllowCheats => assert Members[4] == AllowCheats;
    case MaxPlayers => assert Members[5] == MaxPlayers;
    case OnlineMode => assert Members[6] == OnlineMode;
    case AllowList => assert Members[7] == AllowList;
    case ServerPort => assert Members[8] == ServerPort;
    case ServerPortV6 => assert Members[9] == ServerPortV6;
    case EnableLanVisibility => assert Members[10] == EnableLanVisibility;
    case ViewDistance => assert Members[11] == ViewDistance;
    case TickDistance => assert Members[12] == TickDistance;
    case PlayerIdleTimeout => assert Members[13] == PlayerIdleTimeout;
    case MaxThreads => assert Members[14] == MaxThreads;
    case LevelName => assert Members[15] == LevelName;
    case LevelSeed => assert Members[16] == LevelSeed;
    case DefaultPlayerPermissionLevel => assert Members[17] == DefaultPlayerPermissionLevel;
    case TexturepackRequired => assert Members[18] == TexturepackRequired;
    case ContentLogFileEnabled => assert Members[19] == ContentLogFileEnabled;
    case CompressionThreshold => assert Members[20] == CompressionThreshold;
    case CompressionAlgorithm => assert Members[21] == CompressionAlgorithm;
    case ServerAuthoritativeMovement => assert Members[22] == ServerAuthoritativeMovement;
    case PlayerMovementScoreThreshold => assert Members[23] == PlayerMovementScoreThreshold;
    case PlayerMovementActionDirectionThreshold => assert Members[24] == PlayerMovementActionDirectionThreshold;
    case PlayerMovementDistanceThreshold => assert Members[25] == PlayerMovementDistanceThreshold;
    case PlayerMovementDurationThresholdInMs => assert Members[26] == PlayerMovementDurationThresholdInMs;
    case CorrectPlayerMovement => assert Members[27] == CorrectPlayerMovement;
    case ServerAuthoritativeBlockBreaking => assert Members[28] == ServerAuthoritativeBlockBreaking;
    case ChatRestriction => assert Members[29] == ChatRestriction;
    case DisablePlayerInteraction => assert Members[30] == DisablePlayerInteraction;
    case ClientSideChunkGenerationEnabled => assert Members[31] == ClientSideChunkGenerationEnabled;
    case BlockNetworkIdsAreHashes => assert Members[32] == BlockNetworkIdsAreHashes;
    case DisablePersona => assert Members[33] == DisablePersona;
    case DisableCustomSkins => assert Members[34] == DisableCustomSkins;
    case ServerBuildRadiusRatio => assert Members[35] == ServerBuildRadiusRatio;
  }

  /** Every member is listed, and no two members share a wire string. */
  lemma MembersTable()
    ensures forall p :: p in Members
    ensures forall p, q :: Wire(p) == Wire(q) ==> p == q
  {
    forall p ensures p in Members {
      Listed(p);
    }
    forall p, q | Wire(p) == Wire(q) ensures p == q {
      MemberOfWire(p);
      MemberOfWire(q);
    }
  }

  /** No other member shares the wire string of `key`. */
  lemma WireUnique(key: Property)
    ensures forall p :: Wire(p) == Wire(key) ==> p == key
  {
    forall p | Wire(p) == Wire(key) ensures p == key {
      MemberOfWire(p);
      MemberOfWire(key);
    }
  }

  /** The reverse lookup of a member's wire string finds that member and no other. */
  lemma MemberNameOfWire(w: string)
    ensures forall p :: Wire(p) == w ==> MemberName(w) == Some(Name(p))
    ensures MemberName(w).None? <==> forall p :: Wire(p) != w
  {
    MembersTable();
  }

  // ---------------------------------------------------------------------
  // Values
  // ---------------------------------------------------------------------

  /** A stored value: `string | number | boolean`, with numbers as the naturals the parser produces. */
  datatype Value = Bool(b: bool) | Num(n: nat) | Str(s: string)

  /** The declared TypeScript type of a value. */
  datatype Kind = BooleanKind | NumberKind | StringKind

  function KindOf(v: Value): Kind {
    match v
    case Bool(_) => BooleanKind
    case Num(_) => NumberKind
    case Str(_) => StringKind
  }

  /**
   * The type of the typed getter and setter pair of a member; EnableLanVisibility
   * has no such pair.
   */
  function Accessor(p: Property): Option<Kind> {
    match p
    case ServerName => Some(StringKind)
    case Gamemode => Some(StringKind)
    case ForceGamdemode => Some(BooleanKind)
    case Difficulty => Some(NumberKind)
    case AllowCheats => Some(BooleanKind)
    case MaxPlayers => Some(NumberKind)
    case OnlineMode => Some(BooleanKind)
    case AllowList => Some(StringKind)
    case ServerPort => Some(NumberKind)
    case ServerPortV6 => Some(NumberKind)
    case EnableLanVisibility => None
    case ViewDistance => Some(NumberKind)
    case TickDistance => Some(NumberKind)
    case PlayerIdleTimeout => Some(NumberKind)
    case MaxThreads => Some(NumberKind)
    case LevelName => Some(StringKind)
    case LevelSeed => Some(StringKind)
    case DefaultPlayerPermissionLevel => Some(NumberKind)
    case TexturepackRequired => Some(BooleanKind)
    case ContentLogFileEnabled => Some(BooleanKind)
    case CompressionThreshold => Some(NumberKind)
    case CompressionAlgorithm => Some(NumberKind)
    case ServerAuthoritativeMovement => Some(BooleanKind)
    case PlayerMovementScoreThreshold => Some(NumberKind)
    case PlayerMovementActionDirectionThreshold => Some(NumberKind)
    case PlayerMovementDistanceThreshold => Some(NumberKind)
    case PlayerMovementDurationThresholdInMs => Some(NumberKind)
    case CorrectPlayerMovement => Some(BooleanKind)
    case ServerAuthoritativeBlockBreaking => Some(BooleanKind)
    case ChatRestriction => Some(NumberKind)
    case DisablePlayerInteraction => Some(BooleanKind)
    case ClientSideChunkGenerationEnabled => Some(BooleanKind)
    case BlockNetworkIdsAreHashes => Some(BooleanKind)
    case DisablePersona => Some(BooleanKind)
    case DisableCustomSkins => Some(BooleanKind)
    case ServerBuildRadiusRatio => Some(NumberKind)
  }

  predicate IsDigit(c: char) {
    '0' <= c <= '9'
  }

  /** `/^[0-9]+$/`: a non-empty run of ASCII digits. */
  predicate IsNumeral(s: string) {
    s != [] && forall i :: 0 <= i < |s| ==> IsDigit(s[i])
  }

  /** `Number(s)` of a numeral: its decimal value. */
  function DigitsValue(s: string): nat
    requires forall i :: 0 <= i < |s| ==> IsDigit(s[i])
    decreases |s|
  {
    if s == [] then 0
    else DigitsValue(s[..|s| - 1]) * 10 + DigitOf(s[|s| - 1])
  }

  function DigitOf(c: char): nat
    requires IsDigit(c)
  {
    c as int - '0' as int
  }

  /** The decimal representation of a natural number, as `${value}` gives it. */
  function Decimal(n: nat): (r: string)
    ensures IsNumeral(r)
    ensures r[0] == '0' ==> n == 0
    decreases n
  {
    var digit := ['0' + (n % 10) as char];
    if n < 10 then digit else Decimal(n / 10) + digit
  }

  /** Reading a written number back gives the number. */
  lemma {:induction false} DecimalRoundTrip(n: nat)
    ensures DigitsValue(Decimal(n)) == n
    decreases n
  {
    if n >= 10 {
      DecimalRoundTrip(n / 10);
      var r := Decimal(n);
      assert r[..|r| - 1] == Decimal(n / 10);
    }
  }

  /** The typing of a raw value (src/Properties.ts:60-66). */
  function TypeValue(raw: string): Value {
    if raw == "true" || raw == "false" then Bool(raw == "true")
    else if IsNumeral(raw) then Num(DigitsValue(raw))
    else Str(raw)
  }

  /** `${value}` in the substitution. */
  function Render(v: Value): string {
    match v
    case Bool(b) => if b then "true" else "false"
    case Num(n) => Decimal(n)
    case Str(s) => s
  }

  /**
   * A written value reads back as itself exactly unless it is a string that
   * looks like a boolean or a number: those come back typed.
   */
  lemma ReadBack(v: Value)
    ensures TypeValue(Render(v)) == v <==> !(v.Str? && (v.s == "true" || v.s == "false" || IsNumeral(v.s)))
  {
    match v
    case Bool(b) =>
    case Num(n) =>
      var r := Decimal(n);
      DecimalRoundTrip(n);
      assert IsDigit(r[0]);
    case Str(s) =>
  }

  // ---------------------------------------------------------------------
  // Parsing the file (src/Properties.ts:57-67)
  // ---------------------------------------------------------------------

  /** `text.replace(/\r/g, '')`. */
  function RemoveCarriageReturns(s: string): (r: string)
    ensures '\r' !in r
    ensures |r| <= |s|
    ensures '\r' !in s ==> r == s
    decreases |s|
  {
    if s == [] then []
    else if s[0] == '\r' then RemoveCarriageReturns(s[1..])
    else [s[0]] + RemoveCarriageReturns(s[1..])
  }

  /** Removing carriage returns distributes over concatenation. */
  lemma {:induction false} RemoveCarriageReturnsAppend(a: string, b: string)
    ensures RemoveCarriageReturns(a + b) == RemoveCarriageReturns(a) + RemoveCarriageReturns(b)
    decreases |a|
  {
    if a != [] {
      assert (a + b)[0] == a[0];
      assert (a + b)[1..] == a[1..] + b;
      RemoveCarriageReturnsAppend(a[1..], b);
      if a[0] != '\r' {
        assert RemoveCarriageReturns(a + b) == [a[0]] + (RemoveCarriageReturns(a[1..]) + RemoveCarriageReturns(b));
      }
    } else {
      assert a + b == b;
    }
  }

  /** A line the parser reads: not empty and not a comment. */
  predicate Retained(line: string) {
    line != "" && !("#" <= line)
  }

  /** `.filter(line => !line.startsWith('#') && line !== '')`. */
  function RetainedOnly(lines: seq<string>): (r: seq<string>)
    ensures forall k :: 0 <= k < |r| ==> Retained(r[k]) && r[k] in lines
    ensures forall line :: line in r <==> line in lines && Retained(line)
    decreases |lines|
  {
    if lines == [] then []
    else if Retained(lines[0]) then [lines[0]] + RetainedOnly(lines[1..])
    else RetainedOnly(lines[1..])
  }

  /** The lines of the file that are parsed, in order. */
  function RetainedLines(text: string): seq<string> {
    RetainedOnly(SplitOn(RemoveCarriageReturns(text), "\n"))
  }

  /** `line.split('=')`. */
  function Fields(line: string): (r: seq<string>)
    ensures |r| >= 1
  {
    SplitOn(line, "=")
  }

  /** A line yields a value (the second field exists) exactly when it contains '='. */
  lemma HasValueIff(line: string)
    ensures |Fields(line)| >= 2 <==> '=' in line
  {
    var parts := Fields(line);
    JoinSplit(line, "=");
    if |parts| == 1 {
      SplitPiecesAvoidSeparator(line, "=");
      OccursChar('=', parts[0]);
    } else {
      assert line == parts[0] + "=" + Join(parts[1..], "=");
      assert line[|parts[0]|] == '=';
    }
  }

  /**
   * With a '=' in the line, the key is the text before the first '=' and the
   * value the text after it up to the next '=' or the end of the line.
   */
  lemma KeyAndValue(line: string)
    requires '=' in line
    ensures |Fields(line)| >= 2
    ensures '=' !in KeyOf(line) && '=' !in RawValueOf(line)
    ensures var n := |KeyOf(line)| + 1 + |RawValueOf(line)|;
      && n <= |line|
      && line[..n] == KeyOf(line) + "=" + RawValueOf(line)
      && (n == |line| || line[n] == '=')
  {
    HasValueIff(line);
    var parts := Fields(line);
    assert '=' !in parts[0] && '=' !in parts[1] by {
      SplitPiecesAvoidSeparator(line, "=");
      OccursChar('=', parts[0]);
      OccursChar('=', parts[1]);
    }
    var rest := if |parts| == 2 then [] else "=" + Join(parts[2..], "=");
    var head := parts[0] + "=" + parts[1];
    assert line == head + rest by {
      JoinSplit(line, "=");
      JoinFirstTwo(parts, "=");
    }
    assert line[..|head|] == head;
    if rest != [] {
      assert line[|head|] == rest[0];
    }
  }

  /** The text before the first '='. */
  function KeyOf(line: string): string {
    Fields(line)[0]
  }

  /** The text between the first and the second '='. */
  function RawValueOf(line: string): string
    requires |Fields(line)| >= 2
  {
    Fields(line)[1]
  }

  /** The map with its insertion order, as a JavaScript `Map` keeps it. */
  datatype Table = Table(order: seq<string>, values: map<string, Value>)

  /** Each key once in the order, and the order lists exactly the keys of the map. */
  ghost predicate WellFormed(t: Table) {
    && (forall i, j :: 0 <= i < j < |t.order| ==> t.order[i] != t.order[j])
    && (forall k :: k in t.values <==> k in t.order)
  }

  /** `Map.set`: a new key goes to the end of the order; an existing key keeps its place. */
  function Insert(t: Table, key: string, v: Value): (r: Table)
    ensures WellFormed(t) ==> WellFormed(r)
    ensures t.order <= r.order
  {
    Table(if key in t.values then t.order else t.order + [key], t.values[key := v])
  }

  /** JavaScript throws a TypeError on a retained line without '=' (`value.match` of `undefined`). */
  datatype ParseError = MissingValue(line: string)

  /** The constructor's loop over the retained lines, from a table built so far. */
  function Load(lines: seq<string>, t: Table): Result<Table, ParseError>
    decreases |lines|
  {
    if lines == [] then Success(t)
    else
      var parts := Fields(lines[0]);
      if |parts| < 2 then Failure(MissingValue(lines[0]))
      else Load(lines[1..], Insert(t, parts[0], TypeValue(parts[1])))
  }

  /** One turn of the constructor's loop: a line with a value is inserted and loading goes on. */
  lemma LoadStep(lines: seq<string>, i: nat, t: Table)
    requires i < |lines| && Load(lines[i..], t).Success?
    ensures |Fields(lines[i])| >= 2
    ensures Load(lines[i..], t) == Load(lines[i + 1..], Insert(t, Fields(lines[i])[0], TypeValue(Fields(lines[i])[1])))
  {
    assert lines[i..][0] == lines[i] && lines[i..][1..] == lines[i + 1..];
  }

  /** The typed map of a file's text, or the error its constructor throws. */
  function ParseFile(text: string): Result<Table, ParseError> {
    Load(RetainedLines(text), Table([], map[]))
  }

  /** Loading fails exactly on a line without '=', and reports the first such line. */
  lemma {:induction false} LoadFailure(lines: seq<string>, t: Table)
    ensures Load(lines, t).Failure? <==> exists j :: 0 <= j < |lines| && |Fields(lines[j])| < 2
    ensures Load(lines, t).Failure? ==>
      exists j :: (0 <= j < |lines| && Load(lines, t).error == MissingValue(lines[j])
                   && |Fields(lines[j])| < 2 && forall i :: 0 <= i < j ==> |Fields(lines[i])| >= 2)
    decreases |lines|
  {
    if lines != [] && |Fields(lines[0])| >= 2 {
      var parts := Fields(lines[0]);
      var u := Insert(t, parts[0], TypeValue(parts[1]));
      LoadFailure(lines[1..], u);
      assert Load(lines, t) == Load(lines[1..], u);
      if Load(lines, t).Failure? {
        var j :| 0 <= j < |lines[1..]| && Load(lines, t).error == MissingValue(lines[1..][j])
          && |Fields(lines[1..][j])| < 2 && forall i :: 0 <= i < j ==> |Fields(lines[1..][i])| >= 2;
        ShiftFirstFailure(lines, j);
      }
      assert (exists j :: 0 <= j < |lines| && |Fields(lines[j])| < 2) ==>
             (exists j :: 0 <= j < |lines[1..]| && |Fields(lines[1..][j])| < 2) by {
        if exists j :: 0 <= j < |lines| && |Fields(lines[j])| < 2 {
          var j :| 0 <= j < |lines| && |Fields(lines[j])| < 2;
          assert j > 0 && lines[1..][j - 1] == lines[j];
        }
      }
    } else if lines != [] {
      assert |Fields(lines[0])| < 2;
    }
  }

  /** A first malformed line `j` of the tail is the first malformed line `j + 1` of a list whose head is well formed. */
  lemma ShiftFirstFailure(lines: seq<string>, j: nat)
    requires j + 1 < |lines| && |Fields(lines[0])| >= 2
    requires forall i :: 0 <= i < j ==> |Fields(lines[1..][i])| >= 2
    ensures lines[j + 1] == lines[1..][j]
    ensures forall i :: 0 <= i < j + 1 ==> |Fields(lines[i])| >= 2
  {
    forall i | 0 <= i < j + 1 ensures |Fields(lines[i])| >= 2 {
      if i > 0 { assert lines[i] == lines[1..][i - 1]; }
    }
  }

  /** Line `j` is the last of `lines` that sets its key. */
  predicate LastSets(lines: seq<string>, j: int)
    requires 0 <= j < |lines|
  {
    forall i :: j < i < |lines| ==> KeyOf(lines[i]) != KeyOf(lines[j])
  }

  /** A load that succeeds read a value on every line. */
  lemma LoadSuccess(lines: seq<string>, t: Table)
    requires Load(lines, t).Success?
    ensures forall j :: 0 <= j < |lines| ==> |Fields(lines[j])| >= 2
  {
    LoadFailure(lines, t);
  }

  /** Loading keeps a table well-formed and keeps the old order as a prefix. */
  lemma {:induction false} LoadWellFormed(lines: seq<string>, t: Table)
    requires WellFormed(t)
    requires Load(lines, t).Success?
    ensures WellFormed(Load(lines, t).value)
    ensures t.order <= Load(lines, t).value.order
    decreases |lines|
  {
    if lines != [] {
      var parts := Fields(lines[0]);
      LoadWellFormed(lines[1..], Insert(t, parts[0], TypeValue(parts[1])));
    }
  }

  /** After loading, a key is present exactly when it was before or some line sets it. */
  lemma {:induction false} LoadKeys(lines: seq<string>, t: Table, k: string)
    requires Load(lines, t).Success?
    ensures k in Load(lines, t).value.values <==>
      k in t.values || exists j :: 0 <= j < |lines| && KeyOf(lines[j]) == k
    decreases |lines|
  {
    if lines != [] {
      var parts := Fields(lines[0]);
      var rest := lines[1..];
      LoadKeys(rest, Insert(t, parts[0], TypeValue(parts[1])), k);
      if exists j :: 0 <= j < |rest| && KeyOf(rest[j]) == k {
        var j :| 0 <= j < |rest| && KeyOf(rest[j]) == k;
        assert lines[j + 1] == rest[j];
      }
      if exists j :: 0 <= j < |lines| && KeyOf(lines[j]) == k {
        var j :| 0 <= j < |lines| && KeyOf(lines[j]) == k;
        if j > 0 {
          assert lines[j] == rest[j - 1];
        }
      }
    }
  }

  /** A key that no line sets keeps its value. */
  lemma {:induction false} LoadUntouched(lines: seq<string>, t: Table, k: string)
    requires Load(lines, t).Success?
    requires k in t.values
    requires forall j :: 0 <= j < |lines| ==> KeyOf(lines[j]) != k
    ensures k in Load(lines, t).value.values
    ensures Load(lines, t).value.values[k] == t.values[k]
    decreases |lines|
  {
    if lines != [] {
      var parts := Fields(lines[0]);
      var rest := lines[1..];
      assert KeyOf(lines[0]) != k;
      forall j | 0 <= j < |rest|
        ensures KeyOf(rest[j]) != k
      {
        assert rest[j] == lines[j + 1];
      }
      LoadUntouched(rest, Insert(t, parts[0], TypeValue(parts[1])), k);
    }
  }

  /** The key of the last line that sets it holds that line's typed value. */
  lemma {:induction false} LoadLast(lines: seq<string>, t: Table, j: int)
    requires Load(lines, t).Success?
    requires 0 <= j < |lines| && LastSets(lines, j)
    ensures |Fields(lines[j])| >= 2
    ensures KeyOf(lines[j]) in Load(lines, t).value.values
    ensures Load(lines, t).value.values[KeyOf(lines[j])] == TypeValue(RawValueOf(lines[j]))
    decreases |lines|
  {
    var parts := Fields(lines[0]);
    var rest := lines[1..];
    var t' := Insert(t, parts[0], TypeValue(parts[1]));
    if j > 0 {
      assert lines[j] == rest[j - 1];
      forall i | j - 1 < i < |rest|
        ensures KeyOf(rest[i]) != KeyOf(rest[j - 1])
      {
        assert rest[i] == lines[i + 1];
      }
      LoadLast(rest, t', j - 1);
    } else {
      forall i | 0 <= i < |rest|
        ensures KeyOf(rest[i]) != parts[0]
      {
        assert rest[i] == lines[i + 1];
      }
      LoadUntouched(rest, t', parts[0]);
    }
  }

  /** The index of the first line that sets key `k`, or the number of lines when none does. */
  function FirstSetting(lines: seq<string>, k: string): (r: nat)
    ensures r <= |lines|
    ensures r < |lines| ==> KeyOf(lines[r]) == k
    decreases |lines|
  {
    if lines == [] || KeyOf(lines[0]) == k then 0
    else 1 + FirstSetting(lines[1..], k)
  }

  /** No line before FirstSetting sets the key. */
  lemma {:induction false} FirstSettingIsFirst(lines: seq<string>, k: string)
    ensures forall i :: 0 <= i < FirstSetting(lines, k) ==> KeyOf(lines[i]) != k
    decreases |lines|
  {
    if lines != [] && KeyOf(lines[0]) != k {
      FirstSettingIsFirst(lines[1..], k);
      assert forall i :: 1 <= i < FirstSetting(lines, k) ==> lines[i] == lines[1..][i - 1];
    }
  }

  /**
   * The keys a load appends to the order are new, each set by some line,
   * and they stand in the order in which lines first set them.
   */
  lemma {:induction false} LoadOrder(lines: seq<string>, t: Table)
    requires WellFormed(t)
    requires Load(lines, t).Success?
    ensures var o := Load(lines, t).value.order;
      && |t.order| <= |o|
      && (forall i :: |t.order| <= i < |o| ==> o[i] !in t.values && FirstSetting(lines, o[i]) < |lines|)
      && (forall i, j :: |t.order| <= i < j < |o| ==> FirstSetting(lines, o[i]) < FirstSetting(lines, o[j]))
    decreases |lines|
  {
    LoadWellFormed(lines, t);
    if lines != [] {
      var parts := Fields(lines[0]);
      var t' := Insert(t, parts[0], TypeValue(parts[1]));
      LoadWellFormed(lines[1..], t');
      LoadOrder(lines[1..], t');
      LoadOrderStep(lines, t, TypeValue(parts[1]), Load(lines, t).value.order);
    }
  }

  /** The inductive step of LoadOrder: the first line's key, if new, comes first. */
  lemma LoadOrderStep(lines: seq<string>, t: Table, v: Value, o: seq<string>)
    requires lines != []
    requires Insert(t, KeyOf(lines[0]), v).order <= o
    requires var t' := Insert(t, KeyOf(lines[0]), v);
      && (forall i :: |t'.order| <= i < |o| ==> o[i] !in t'.values && FirstSetting(lines[1..], o[i]) < |lines[1..]|)
      && (forall i, j :: |t'.order| <= i < j < |o| ==> FirstSetting(lines[1..], o[i]) < FirstSetting(lines[1..], o[j]))
    ensures forall i :: |t.order| <= i < |o| ==> o[i] !in t.values && FirstSetting(lines, o[i]) < |lines|
    ensures forall i, j :: |t.order| <= i < j < |o| ==> FirstSetting(lines, o[i]) < FirstSetting(lines, o[j])
  {
    var k0 := KeyOf(lines[0]);
    var t' := Insert(t, k0, v);
    LoadOrderShift(lines, t'.values, |t'.order|, o);
    forall i | |t'.order| <= i < |o|
      ensures o[i] !in t.values && FirstSetting(lines, o[i]) < |lines|
    {
      assert o[i] !in t'.values;
    }
    if k0 in t.values {
      assert t'.order == t.order;
    } else {
      var n := |t.order|;
      assert t'.order == t.order + [k0];
      assert o[n] == t'.order[n] == k0;
      assert FirstSetting(lines, k0) == 0;
      LoadOrderNewKey(lines, t'.order, o);
    }
  }

  /** Keys the first line does not set are first set one line later in the tail. */
  lemma LoadOrderShift(lines: seq<string>, keys: map<string, Value>, from: nat, o: seq<string>)
    requires lines != [] && KeyOf(lines[0]) in keys
    requires forall i :: from <= i < |o| ==> o[i] !in keys
    ensures forall i :: from <= i < |o| ==> FirstSetting(lines, o[i]) == 1 + FirstSetting(lines[1..], o[i])
  {
    forall i | from <= i < |o|
      ensures FirstSetting(lines, o[i]) == 1 + FirstSetting(lines[1..], o[i])
    {
      assert o[i] != KeyOf(lines[0]);
    }
  }

  /** A new first key heads the appended keys, since line 0 sets it. */
  lemma LoadOrderNewKey(lines: seq<string>, prior: seq<string>, o: seq<string>)
    requires lines != [] && prior != [] && prior[|prior| - 1] == KeyOf(lines[0]) && prior <= o
    requires forall i :: |prior| <= i < |o| ==> FirstSetting(lines, o[i]) == 1 + FirstSetting(lines[1..], o[i])
    requires forall i, j :: |prior| <= i < j < |o| ==> FirstSetting(lines[1..], o[i]) < FirstSetting(lines[1..], o[j])
    ensures forall i, j :: |prior| - 1 <= i < j < |o| ==> FirstSetting(lines, o[i]) < FirstSetting(lines, o[j])
  {
    var n := |prior| - 1;
    assert o[n] == prior[n];
    assert FirstSetting(lines, o[n]) == 0;
    forall i, j | n <= i < j < |o|
      ensures FirstSetting(lines, o[i]) < FirstSetting(lines, o[j])
    {
      if i == n {
        assert FirstSetting(lines, o[j]) == 1 + FirstSetting(lines[1..], o[j]);
      } else {
        assert FirstSetting(lines[1..], o[i]) < FirstSetting(lines[1..], o[j]);
      }
    }
  }

  /**
   * The parse of a well-formed file: each retained line has a '=', the map
   * is well-formed and has exactly the keys of the retained lines, and each
   * key holds the typed value of the last line with that key; the keys are
   * ordered by the line that first sets each.
   */
  lemma ParseFileSpec(text: string)
    requires ParseFile(text).Success?
    ensures var lines := RetainedLines(text);
      var r := ParseFile(text).value;
      && WellFormed(r)
      && (forall j :: 0 <= j < |lines| ==> |Fields(lines[j])| >= 2)
      && (forall k :: k in r.values <==> exists j :: 0 <= j < |lines| && KeyOf(lines[j]) == k)
      && (forall j :: 0 <= j < |lines| && LastSets(lines, j) ==>
            |Fields(lines[j])| >= 2 && KeyOf(lines[j]) in r.values
            && r.values[KeyOf(lines[j])] == TypeValue(RawValueOf(lines[j])))
      && (forall i, j :: 0 <= i < j < |r.order| ==> FirstSetting(lines, r.order[i]) < FirstSetting(lines, r.order[j]))
  {
    var lines := RetainedLines(text);
    var t := Table([], map[]);
    LoadSuccess(lines, t);
    LoadWellFormed(lines, t);
    LoadOrder(lines, t);
    forall k | true
      ensures k in ParseFile(text).value.values <==> exists j :: 0 <= j < |lines| && KeyOf(lines[j]) == k
    {
      LoadKeys(lines, t, k);
    }
    forall j | 0 <= j < |lines| && LastSets(lines, j)
      ensures |Fields(lines[j])| >= 2 && KeyOf(lines[j]) in ParseFile(text).value.values
        && ParseFile(text).value.values[KeyOf(lines[j])] == TypeValue(RawValueOf(lines[j]))
    {
      LoadLast(lines, t, j);
    }
  }

  // ---------------------------------------------------------------------
  // Writing one key (src/Properties.ts:76)
  // ---------------------------------------------------------------------

  /** How far `.*` reaches: the number of characters before the first line terminator. */
  function LineRest(t: string): (n: nat)
    ensures n <= |t|
    ensures forall i :: 0 <= i < n ==> !IsLineTerminator(t[i])
    ensures n < |t| ==> IsLineTerminator(t[n])
    decreases |t|
  {
    if t == [] || IsLineTerminator(t[0]) then 0 else 1 + LineRest(t[1..])
  }

  /** The length of the match at the start of a text that starts with `pat`: the pattern and the rest of its line. */
  function Span(text: string, pat: string): (n: nat)
    requires pat <= text
    ensures |pat| <= n <= |text|
  {
    |pat| + LineRest(text[|pat|..])
  }

  /**
   * `text.replace(new RegExp(`${pat}(.*)`, 'g'), pat + rep)` for a pattern
   * free of regular-expression syntax: every occurrence of `pat`, found from
   * the left, and the rest of its line are replaced by `pat + rep`; the search
   * resumes after the replaced span.
   */
  function Substitute(text: string, pat: string, rep: string): string
    requires pat != []
    decreases |text|
  {
    if pat <= text then pat + rep + Substitute(text[Span(text, pat)..], pat, rep)
    else if text == [] then []
    else [text[0]] + Substitute(text[1..], pat, rep)
  }

  /** A text that starts with the pattern: the match and the rest of its line become `pat + rep`. */
  lemma SubstituteAtMatch(text: string, pat: string, rep: string)
    requires pat != [] && pat <= text
    ensures Substitute(text, pat, rep) == pat + rep + Substitute(text[Span(text, pat)..], pat, rep)
  {
  }

  /** A text without an occurrence of the pattern is written unchanged. */
  lemma {:induction false} SubstituteAbsent(text: string, pat: string, rep: string)
    requires pat != []
    requires !Occurs(pat, text)
    ensures Substitute(text, pat, rep) == text
    decreases |text|
  {
    if text != [] {
      SubstituteAbsent(text[1..], pat, rep);
    }
  }

  /**
   * Substitution works line by line: a line terminator is kept and splits
   * the text into parts that are rewritten independently.
   */
  lemma {:induction false} SubstituteLines(a: string, c: char, b: string, pat: string, rep: string)
    requires pat != [] && OneLine(pat) && IsLineTerminator(c)
    ensures Substitute(a + [c] + b, pat, rep) == Substitute(a, pat, rep) + [c] + Substitute(b, pat, rep)
    decreases |a|, 1
  {
    var t := a + [c] + b;
    if a == [] {
      assert !IsLineTerminator(pat[0]) && t[0] == c;
      assert t[1..] == b;
      assert Substitute(t, pat, rep) == [c] + Substitute(b, pat, rep);
    } else if pat <= t {
      SubstituteLinesMatch(a, c, b, pat, rep);
    } else {
      SubstituteLinesSkip(a, c, b, pat, rep);
    }
  }

  /** `SubstituteLines` when the text starts with the pattern. */
  lemma {:induction false} SubstituteLinesMatch(a: string, c: char, b: string, pat: string, rep: string)
    requires pat != [] && OneLine(pat) && IsLineTerminator(c)
    requires a != [] && pat <= a + [c] + b
    ensures Substitute(a + [c] + b, pat, rep) == Substitute(a, pat, rep) + [c] + Substitute(b, pat, rep)
    decreases |a|, 0
  {
    var t := a + [c] + b;
    MatchSpan(pat, a, c, b);
    var n := Span(a, pat);
    var rest := a[n..];
    var sa := Substitute(rest, pat, rep);
    var sb := Substitute(b, pat, rep);
    assert Substitute(t, pat, rep) == pat + rep + (sa + [c] + sb) by {
      SubstituteLines(rest, c, b, pat, rep);
      assert t[n..] == rest + [c] + b;
    }
    SubstituteAtMatch(a, pat, rep);
  }

  /** The span a match replaces in `a + [c] + b` lies inside `a`. */
  lemma MatchSpan(pat: string, a: string, c: char, b: string)
    requires OneLine(pat) && IsLineTerminator(c) && pat <= a + [c] + b
    ensures pat <= a
    ensures Span(a + [c] + b, pat) == Span(a, pat)
    ensures (a + [c] + b)[Span(a, pat)..] == a[Span(a, pat)..] + [c] + b
  {
    var t := a + [c] + b;
    PrefixStops(pat, a, c, b);
    var x := a[|pat|..];
    assert t[|pat|..] == x + [c] + b;
    LineRestStops(x, c, b);
  }

  /** `SubstituteLines` when the text does not start with the pattern. */
  lemma {:induction false} SubstituteLinesSkip(a: string, c: char, b: string, pat: string, rep: string)
    requires pat != [] && OneLine(pat) && IsLineTerminator(c)
    requires a != [] && !(pat <= a + [c] + b)
    ensures Substitute(a + [c] + b, pat, rep) == Substitute(a, pat, rep) + [c] + Substitute(b, pat, rep)
    decreases |a|, 0
  {
    var t := a + [c] + b;
    assert t[0] == a[0] && t[1..] == a[1..] + [c] + b;
    SubstituteLines(a[1..], c, b, pat, rep);
    assert Substitute(t, pat, rep) == [a[0]] + Substitute(t[1..], pat, rep);
    assert Substitute(a, pat, rep) == [a[0]] + Substitute(a[1..], pat, rep);
  }

  /** A one-line pattern at the start of a text ends before the text's first line terminator. */
  lemma PrefixStops(pat: string, a: string, c: char, b: string)
    requires OneLine(pat) && IsLineTerminator(c) && pat <= a + [c] + b
    ensures pat <= a
  {
    assert (a + [c] + b)[|a|] == c;
  }

  /** `.*` stops at the first line terminator, whatever follows it. */
  lemma {:induction false} LineRestStops(x: string, c: char, b: string)
    requires IsLineTerminator(c)
    ensures LineRest(x + [c] + b) == LineRest(x)
    decreases |x|
  {
    var t := x + [c] + b;
    if x == [] {
      assert t[0] == c;
    } else {
      assert t[0] == x[0] && t[1..] == x[1..] + [c] + b;
      LineRestStops(x[1..], c, b);
    }
  }

  /**
   * On one line, the first occurrence of the pattern and everything after
   * it are replaced by `pat + rep`; the text before it is kept.
   */
  lemma {:induction false} SubstituteLine(line: string, pat: string, rep: string, i: nat)
    requires pat != [] && OneLine(line)
    requires i <= |line| && pat <= line[i..]
    requires forall j :: 0 <= j < i ==> !(pat <= line[j..])
    ensures Substitute(line, pat, rep) == line[..i] + pat + rep
    decreases i
  {
    if i == 0 {
      assert line[0..] == line;
      SubstituteLineHere(line, pat, rep);
    } else {
      var t := line[1..];
      NoMatchBefore(line, pat, i);
      assert OneLine(t) by { SubstituteLineSkip(line, pat, rep); }
      assert t[i - 1..] == line[i..];
      SubstituteLine(t, pat, rep, i - 1);
      SubstituteLineStep(line, pat, rep, i);
    }
  }

  /** One character before the match: it is kept in front of the tail's substitution. */
  lemma SubstituteLineStep(line: string, pat: string, rep: string, i: nat)
    requires pat != [] && 0 < i <= |line| && !(pat <= line)
    requires Substitute(line[1..], pat, rep) == line[1..][..i - 1] + pat + rep
    ensures Substitute(line, pat, rep) == line[..i] + pat + rep
  {
    assert line[..i] == [line[0]] + line[1..][..i - 1];
  }

  /** A match at the start of a line takes the whole line. */
  lemma SubstituteLineHere(line: string, pat: string, rep: string)
    requires pat != [] && OneLine(line) && pat <= line
    ensures Substitute(line, pat, rep) == pat + rep
  {
    var x := line[|pat|..];
    assert OneLine(x) by {
      forall k | 0 <= k < |x| ensures !IsLineTerminator(x[k]) { assert x[k] == line[|pat| + k]; }
    }
    LineRestAfterOneLine(x, []);
    assert x + [] == x;
    assert Span(line, pat) == |line|;
    SubstituteAtMatch(line, pat, rep);
    assert line[|line|..] == [];
  }

  /** Away from a match, a line keeps its first character and the rest is still one line. */
  lemma SubstituteLineSkip(line: string, pat: string, rep: string)
    requires pat != [] && OneLine(line) && line != [] && !(pat <= line)
    ensures Substitute(line, pat, rep) == [line[0]] + Substitute(line[1..], pat, rep)
    ensures OneLine(line[1..])
  {
    forall k | 0 <= k < |line| - 1 ensures !IsLineTerminator(line[1..][k]) { assert line[1..][k] == line[k + 1]; }
  }

  /**
   * Substitution keeps any prefix no longer than the pattern: it starts the
   * rewritten text exactly when it starts the original one.
   */
  lemma {:induction false} SubstituteKeepsShortPrefix(text: string, w: string, pat: string, rep: string)
    requires pat != [] && |w| <= |pat|
    ensures w <= Substitute(text, pat, rep) <==> w <= text
    decreases |text|
  {
    if pat <= text {
      ShortPrefixAtMatch(text, w, pat, rep);
    } else if text != [] && w != [] {
      SubstituteKeepsShortPrefix(text[1..], w[1..], pat, rep);
      ShortPrefixStep(text, w, pat, rep);
    }
  }

  /** `SubstituteKeepsShortPrefix` where a match starts: both texts start with the pattern. */
  lemma ShortPrefixAtMatch(text: string, w: string, pat: string, rep: string)
    requires pat != [] && |w| <= |pat| && pat <= text
    ensures w <= Substitute(text, pat, rep) <==> w <= text
  {
    var s := Substitute(text, pat, rep);
    var tail := Substitute(text[Span(text, pat)..], pat, rep);
    assert s == pat + (rep + tail);
    assert s[..|w|] == pat[..|w|] == text[..|w|];
  }

  /** The step of `SubstituteKeepsShortPrefix` past a character that starts no match. */
  lemma ShortPrefixStep(text: string, w: string, pat: string, rep: string)
    requires pat != [] && text != [] && w != [] && !(pat <= text)
    requires w[1..] <= Substitute(text[1..], pat, rep) <==> w[1..] <= text[1..]
    ensures w <= Substitute(text, pat, rep) <==> w <= text
  {
    var s := Substitute(text, pat, rep);
    assert s == [text[0]] + Substitute(text[1..], pat, rep);
    assert s[0] == text[0] && s[1..] == Substitute(text[1..], pat, rep);
    assert w <= s <==> w[0] == s[0] && w[1..] <= s[1..];
    assert w <= text <==> w[0] == text[0] && w[1..] <= text[1..];
  }

  /** Writing the written text again with the same key and value changes nothing. */
  lemma {:induction false} SubstituteIdempotent(text: string, pat: string, rep: string)
    requires pat != [] && OneLine(pat) && OneLine(rep)
    ensures Substitute(Substitute(text, pat, rep), pat, rep) == Substitute(text, pat, rep)
    decreases |text|
  {
    if pat <= text {
      SubstituteIdempotent(text[Span(text, pat)..], pat, rep);
      ResubstituteAtMatch(text, pat, rep);
    } else if text != [] {
      SubstituteIdempotent(text[1..], pat, rep);
      ResubstituteSkip(text, pat, rep);
    }
  }

  /** Substituting twice at a match: the rewritten match is matched again and maps to itself. */
  lemma ResubstituteAtMatch(text: string, pat: string, rep: string)
    requires pat != [] && OneLine(rep) && pat <= text
    ensures var u := text[Span(text, pat)..];
      Substitute(Substitute(text, pat, rep), pat, rep) == pat + rep + Substitute(Substitute(u, pat, rep), pat, rep)
  {
    var u := text[Span(text, pat)..];
    var su := Substitute(u, pat, rep);
    var s := pat + rep + su;
    assert Substitute(text, pat, rep) == s by { SubstituteAtMatch(text, pat, rep); }
    assert pat <= s;
    assert Span(s, pat) == |pat| + |rep| by {
      SubstituteStartsLine(u, pat, rep);
      assert s[|pat|..] == rep + su;
      LineRestAfterOneLine(rep, su);
    }
    assert s[Span(s, pat)..] == su;
    SubstituteAtMatch(s, pat, rep);
  }

  /** What follows a match is empty or starts at a line terminator, and so does its substitution. */
  lemma SubstituteStartsLine(u: string, pat: string, rep: string)
    requires pat != [] && (u == [] || IsLineTerminator(u[0]))
    ensures LineRest(Substitute(u, pat, rep)) == 0
  {
    if u != [] {
      SubstituteKeepsShortPrefix(u, [u[0]], pat, rep);
      assert [u[0]] <= u;
    } else {
      assert Substitute(u, pat, rep) == [];
    }
  }

  /** Substituting twice away from a match: the first character is kept both times. */
  lemma ResubstituteSkip(text: string, pat: string, rep: string)
    requires pat != [] && text != [] && !(pat <= text)
    ensures Substitute(Substitute(text, pat, rep), pat, rep) ==
      [text[0]] + Substitute(Substitute(text[1..], pat, rep), pat, rep)
  {
    var t' := text[1..];
    var s := [text[0]] + Substitute(t', pat, rep);
    assert Substitute(text, pat, rep) == s;
    SubstituteKeepsShortPrefix(t', pat[1..], pat, rep);
    assert pat <= s <==> pat[0] == text[0] && pat[1..] <= s[1..];
    assert pat <= text <==> pat[0] == text[0] && pat[1..] <= t';
    assert s[1..] == Substitute(t', pat, rep);
  }

  lemma {:induction false} LineRestAfterOneLine(a: string, b: string)
    requires OneLine(a)
    ensures LineRest(a + b) == |a| + LineRest(b)
    decreases |a|
  {
    if a != [] {
      assert (a + b)[1..] == a[1..] + b;
      LineRestAfterOneLine(a[1..], b);
    } else {
      assert a + b == b;
    }
  }

  /**
   * The text one match is replaced by, as `String.prototype.replace` builds
   * it from its template (the GetSubstitution operation of ECMA-262), for a
   * pattern with one capture group: `$$` is a dollar sign, `$&` the match,
   * `` $` `` the text before it, `$'` the text after it, `$1` and `$01` the
   * group; every other `$` stands for itself.
   */
  function Expand(template: string, matched: string, group: string, before: string, after: string): string
    decreases |template|
  {
    if template == [] then []
    else if template[0] != '$' || |template| == 1 then
      [template[0]] + Expand(template[1..], matched, group, before, after)
    else
      var c := template[1];
      if c == '$' then "$" + Expand(template[2..], matched, group, before, after)
      else if c == '&' then matched + Expand(template[2..], matched, group, before, after)
      else if c == '`' then before + Expand(template[2..], matched, group, before, after)
      else if c == '\'' then after + Expand(template[2..], matched, group, before, after)
      else if IsDigit(c) && |template| >= 3 && IsDigit(template[2]) && DigitOf(c) * 10 + DigitOf(template[2]) <= 1 then
        (if template[2] == '1' then group else template[..3]) + Expand(template[3..], matched, group, before, after)
      else if c == '1' then group + Expand(template[2..], matched, group, before, after)
      else "$" + Expand(template[1..], matched, group, before, after)
  }

  /** A template without a dollar sign is inserted as it is. */
  lemma {:induction false} ExpandLiteral(template: string, matched: string, group: string, before: string, after: string)
    requires '$' !in template
    ensures Expand(template, matched, group, before, after) == template
    decreases |template|
  {
    if template != [] {
      assert template[0] != '$';
      ExpandLiteral(template[1..], matched, group, before, after);
    }
  }

  /**
   * `text.replace(new RegExp(`${pat}(.*)`, 'g'), template)` from position
   * `i` on, for a pattern free of regular-expression syntax: each match is
   * `pat` and the rest of its line, and the search resumes after it.
   */
  function ReplaceFrom(text: string, i: nat, pat: string, template: string): string
    requires pat != [] && i <= |text|
    decreases |text| - i
  {
    if pat <= text[i..] then
      var n := i + Span(text[i..], pat);
      Expand(template, text[i..n], text[i + |pat|..n], text[..i], text[n..]) + ReplaceFrom(text, n, pat, template)
    else if i == |text| then []
    else [text[i]] + ReplaceFrom(text, i + 1, pat, template)
  }

  /** `ReplaceFrom` at a match: the expanded template, then the search from the end of the match. */
  lemma ReplaceFromAtMatch(text: string, i: nat, pat: string, template: string)
    requires pat != [] && i <= |text| && pat <= text[i..]
    ensures var n := i + Span(text[i..], pat);
      ReplaceFrom(text, i, pat, template) ==
      Expand(template, text[i..n], text[i + |pat|..n], text[..i], text[n..]) + ReplaceFrom(text, n, pat, template)
  {
  }

  /** The text setProperty writes for pattern `key=` and template `key=value`. */
  function Replace(text: string, pat: string, template: string): string
    requires pat != []
  {
    ReplaceFrom(text, 0, pat, template)
  }

  /** Without a dollar sign in the value, the replacement is the literal substitution. */
  lemma {:induction false} ReplaceLiteral(text: string, i: nat, pat: string, rep: string)
    requires pat != [] && i <= |text|
    requires '$' !in pat + rep
    ensures ReplaceFrom(text, i, pat, pat + rep) == Substitute(text[i..], pat, rep)
    decreases |text| - i, 1
  {
    if pat <= text[i..] {
      ReplaceLiteralMatch(text, i, pat, rep);
    } else if i < |text| {
      ReplaceLiteralSkip(text, i, pat, rep);
    } else {
      assert text[i..] == [];
    }
  }

  /** `ReplaceLiteral` at a match. */
  lemma {:induction false} ReplaceLiteralMatch(text: string, i: nat, pat: string, rep: string)
    requires pat != [] && i <= |text| && pat <= text[i..]
    requires '$' !in pat + rep
    ensures ReplaceFrom(text, i, pat, pat + rep) == Substitute(text[i..], pat, rep)
    decreases |text| - i, 0
  {
    ReplaceLiteral(text, i + Span(text[i..], pat), pat, rep);
    ReplaceLiteralStep(text, i, pat, rep);
  }

  /** One match, given that the replacement after it already agrees with `Substitute`. */
  lemma ReplaceLiteralStep(text: string, i: nat, pat: string, rep: string)
    requires pat != [] && i <= |text| && pat <= text[i..]
    requires '$' !in pat + rep
    requires var n := i + Span(text[i..], pat);
      ReplaceFrom(text, n, pat, pat + rep) == Substitute(text[n..], pat, rep)
    ensures ReplaceFrom(text, i, pat, pat + rep) == Substitute(text[i..], pat, rep)
  {
    var t := text[i..];
    var n := i + Span(t, pat);
    var tail := Substitute(text[n..], pat, rep);
    assert ReplaceFrom(text, i, pat, pat + rep) == pat + rep + tail by {
      ReplaceFromAtMatch(text, i, pat, pat + rep);
      ExpandLiteral(pat + rep, text[i..n], text[i + |pat|..n], text[..i], text[n..]);
    }
    assert Substitute(t, pat, rep) == pat + rep + tail by {
      SubstituteAtMatch(t, pat, rep);
      assert t[Span(t, pat)..] == text[n..];
    }
  }

  /** `ReplaceLiteral` where no match starts. */
  lemma {:induction false} ReplaceLiteralSkip(text: string, i: nat, pat: string, rep: string)
    requires pat != [] && i < |text| && !(pat <= text[i..])
    requires '$' !in pat + rep
    ensures ReplaceFrom(text, i, pat, pat + rep) == Substitute(text[i..], pat, rep)
    decreases |text| - i, 0
  {
    var t := text[i..];
    assert t[0] == text[i] && t[1..] == text[i + 1..];
    ReplaceLiteral(text, i + 1, pat, rep);
    var tail := Substitute(text[i + 1..], pat, rep);
    assert ReplaceFrom(text, i, pat, pat + rep) == [text[i]] + tail;
    assert Substitute(t, pat, rep) == [text[i]] + tail;
  }

  /** Template text before the first dollar sign is copied as it is. */
  lemma {:induction false} ExpandPrefix(lit: string, template: string, matched: string, group: string, before: string, after: string)
    requires '$' !in lit
    ensures Expand(lit + template, matched, group, before, after) == lit + Expand(template, matched, group, before, after)
    decreases |lit|
  {
    if lit != [] {
      assert lit[0] != '$';
      assert (lit + template)[1..] == lit[1..] + template;
      ExpandPrefix(lit[1..], template, matched, group, before, after);
    } else {
      assert lit + template == template;
    }
  }

  /**
   * Setting a value `$1` writes the old line back unchanged: the template's
   * group is the text the match replaces.
   */
  lemma DollarOneKeepsOldValue(pat: string, prior: string)
    requires pat != [] && '$' !in pat && OneLine(prior)
    ensures Replace(pat + prior, pat, pat + "$1") == pat + prior
  {
    var text := pat + prior;
    assert text[0..] == text && text[|pat|..] == prior;
    LineRestAfterOneLine(prior, []);
    assert prior + [] == prior;
    var n := Span(text, pat);
    assert n == |text|;
    ExpandPrefix(pat, "$1", text[0..n], text[|pat|..n], text[..0], text[n..]);
    assert text[|pat|..n] == prior;
    assert ReplaceFrom(text, n, pat, pat + "$1") == [];
  }

  /**
   * On one line, the first occurrence of the key pattern takes the rest of
   * the line whatever text comes before it: the pattern is not anchored to
   * the start of the line.
   */
  lemma ReplaceWithinLine(x: string, pat: string, y: string, rep: string)
    requires pat != [] && '$' !in pat + rep
    requires OneLine(x + pat + y)
    requires forall j :: 0 <= j < |x| ==> !(pat <= (x + pat + y)[j..])
    ensures Replace(x + pat + y, pat, pat + rep) == x + pat + rep
  {
    var line := x + pat + y;
    ReplaceLiteral(line, 0, pat, rep);
    assert line[0..] == line;
    assert line[|x|..] == pat + y;
    SubstituteLine(line, pat, rep, |x|);
    assert line[..|x|] == x;
  }

  /**
   * A key that ends another key rewrites that key's line too: setting
   * `gamemode` replaces the value of a `force-gamemode` line.
   */
  lemma SuffixKeyIsRewritten(prior: string, value: string)
    requires OneLine(prior) && '$' !in value
    ensures var pat := Wire(Gamemode) + "=";
      Replace("force-" + pat + prior, pat, pat + value) == "force-" + pat + value
  {
    var pat := Wire(Gamemode) + "=";
    var x := "force-";
    var line := x + pat + prior;
    assert pat[0] == 'g' && '$' !in pat;
    assert OneLine(line) by {
      forall k | 0 <= k < |line| ensures !IsLineTerminator(line[k]) {
        if k >= |x| + |pat| { assert line[k] == prior[k - |x| - |pat|]; }
      }
    }
    forall j | 0 <= j < |x| ensures !(pat <= line[j..]) {
      assert line[j..][0] == x[j];
    }
    ReplaceWithinLine(x, pat, prior, value);
  }

  // ---------------------------------------------------------------------
  // The store object
  // ---------------------------------------------------------------------

  /** An element of getAllProperties: the member name of the key (absent if none) and the value. */
  datatype Entry = Entry(key: Option<string>, value: Value)

  /** The entries for the keys `keys` of `m`, in order. */
  function Entries(keys: seq<string>, m: map<string, Value>): (r: seq<Entry>)
    requires forall k :: k in keys ==> k in m
    ensures |r| == |keys|
    ensures forall i :: 0 <= i < |r| ==> r[i] == Entry(MemberName(keys[i]), m[keys[i]])
    decreases |keys|
  {
    if keys == [] then [] else [Entry(MemberName(keys[0]), m[keys[0]])] + Entries(keys[1..], m)
  }

  /** Each entry carries the enum member name of its key, and no name when the key is not a member. */
  lemma EntriesNamed(keys: seq<string>, m: map<string, Value>)
    requires forall k :: k in keys ==> k in m
    ensures |Entries(keys, m)| == |keys|
    ensures forall i :: 0 <= i < |keys| ==> keys[i] in m && Entries(keys, m)[i].value == m[keys[i]]
    ensures forall i, p :: 0 <= i < |keys| && Wire(p) == keys[i] ==> Entries(keys, m)[i].key == Some(Name(p))
    ensures forall i :: 0 <= i < |keys| ==> (Entries(keys, m)[i].key.None? <==> forall p :: Wire(p) != keys[i])
  {
    var r := Entries(keys, m);
    forall i | 0 <= i < |keys|
      ensures forall p :: Wire(p) == keys[i] ==> r[i].key == Some(Name(p))
      ensures r[i].key.None? <==> forall p :: Wire(p) != keys[i]
    {
      MemberNameOfWire(keys[i]);
    }
  }

  class Properties {
    /** The text read at construction; never updated. */
    const file: string
    /** The keys of the map in first-insertion order. */
    var order: seq<string>
    /** The typed map. */
    var properties: map<string, Value>
    /** The text most recently written to the file, if any. */
    var written: Option<string>

    /** The map and its insertion order agree. */
    ghost predicate Valid()
      reads this
    {
      WellFormed(Table(order, properties))
    }

    /**
     * Parse the file's text into the map (src/Properties.ts:54-68); the
     * text must parse, since the source throws otherwise (see `Open`).
     */
    constructor (text: string)
      requires ParseFile(text).Success?
      ensures Valid()
      ensures file == text && written == None
      ensures Table(order, properties) == ParseFile(text).value
    {
      file := text;
      written := None;
      order := [];
      properties := map[];
      new;
      var lines := RetainedLines(text);
      var i := 0;
      while i < |lines|
        invariant 0 <= i <= |lines|
        invariant file == text && written == None
        invariant Load(lines[i..], Table(order, properties)) == ParseFile(text)
      {
        var parts := Fields(lines[i]);
        LoadStep(lines, i, Table(order, properties));
        Absorb(parts[0], parts[1]);
        i := i + 1;
      }
      assert lines[i..] == [];
      LoadWellFormed(lines, Table([], map[]));
    }

    /** One turn of the constructor's loop (src/Properties.ts:60-66): type the raw value and set the key. */
    method Absorb(key: string, value: string)
      modifies this`order, this`properties
      ensures Table(order, properties) == Insert(old(Table(order, properties)), key, TypeValue(value))
    {
      var typed: Value;
      if value == "true" || value == "false" {
        typed := Bool(value == "true");
      } else if IsNumeral(value) {
        typed := Num(DigitsValue(value));
      } else {
        typed := Str(value);
      }
      if key !in properties {
        order := order + [key];
      }
      properties := properties[key := typed];
    }

    /**
     * `new Properties(executable)` as a whole: a new store, or the error the
     * constructor throws on the first retained line without '='.
     */
    static method Open(text: string) returns (r: Result<Properties, ParseError>)
      ensures r.Failure? <==> ParseFile(text).Failure?
      ensures r.Failure? ==> r.error == ParseFile(text).error
      ensures r.Success? ==> fresh(r.value) && r.value.Valid() && r.value.file == text && r.value.written == None
      ensures r.Success? ==> Table(r.value.order, r.value.properties) == ParseFile(text).value
    {
      match ParseFile(text)
      case Failure(e) =>
        r := Failure(e);
      case Success(_) =>
        var p := new Properties(text);
        r := Success(p);
    }

    /** getProperty: the stored value of a key, absent if the file never set it. */
    function GetProperty(key: Property): (r: Option<Value>)
      reads this
      ensures r.Some? <==> Wire(key) in properties
      ensures r.Some? ==> r.value == properties[Wire(key)]
    {
      if Wire(key) in properties then Some(properties[Wire(key)]) else None
    }

    /**
     * setProperty: store the value, then write the construction-time text
     * with every `key=...` span replaced by the template `key=value`.
     */
    method SetProperty(key: Property, value: Value)
      requires Valid()
      modifies this`order, this`properties, this`written
      ensures Valid()
      ensures properties == old(properties)[Wire(key) := value]
      ensures order == if Wire(key) in old(properties) then old(order) else old(order) + [Wire(key)]
      ensures GetProperty(key) == Some(value)
      ensures forall p :: p != key ==> GetProperty(p) == old(GetProperty(p))
      ensures written == Some(Replace(file, Wire(key) + "=", Wire(key) + "=" + Render(value)))
    {
      WireUnique(key);
      var k := Wire(key);
      ghost var before := Table(order, properties);
      if k !in properties {
        order := order + [k];
      }
      properties := properties[k := value];
      assert Table(order, properties) == Insert(before, k, value);
      written := Some(Replace(file, k + "=", k + "=" + Render(value)));
    }

    /**
     * One of the typed setters (setServerName, setMaxPlayers, ...): the
     * value has the type the accessor declares.
     */
    method SetTyped(key: Property, value: Value)
      requires Valid()
      requires Accessor(key) == Some(KindOf(value))
      modifies this`order, this`properties, this`written
      ensures Valid()
      ensures properties == old(properties)[Wire(key) := value]
      ensures order == if Wire(key) in old(properties) then old(order) else old(order) + [Wire(key)]
      ensures written == Some(Replace(file, Wire(key) + "=", Wire(key) + "=" + Render(value)))
    {
      SetProperty(key, value);
    }

    /**
     * One of the typed getters (getServerName, getMaxPlayers, ...): the
     * stored value, whatever its type; the cast checks nothing.
     */
    function GetTyped(key: Property, kind: Kind): (r: Option<Value>)
      reads this
      requires Accessor(key) == Some(kind)
      ensures r.Some? <==> Wire(key) in properties
      ensures r.Some? ==> r.value == properties[Wire(key)]
    {
      GetProperty(key)
    }

    /**
     * getAllProperties: one entry per key in insertion order, with the
     * member name whose wire string is the key and the stored value.
     */
    function GetAllProperties(): (r: seq<Entry>)
      reads this
      requires Valid()
      ensures |r| == |order|
      ensures forall i :: 0 <= i < |r| ==> order[i] in properties && r[i].value == properties[order[i]]
      ensures forall i, p :: 0 <= i < |r| && Wire(p) == order[i] ==> r[i].key == Some(Name(p))
      ensures forall i :: 0 <= i < |r| ==> (r[i].key.None? <==> forall p :: Wire(p) != order[i])
    {
      EntriesNamed(order, properties);
      Entries(order, properties)
    }
  }
}
