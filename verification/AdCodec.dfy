/**
 An advertisement as it travels: the struct of the game is turned into Json with its texts in UTF-8, and back into a struct
 with its texts in Latin-1.
 */
module AdCodec {
  import opened Basics
  import opened Packets

  const TEXT_SIZE: nat := 128
  const UTF8_BUFFER_SIZE: nat := 256
  const EXTRA_SIZE: nat := 32
  const MAX_NAME: nat := TEXT_SIZE - 1

  type u32 = x: nat | x < 0x1_0000_0000

  type TextBuffer = s: seq<byte> | |s| == TEXT_SIZE witness Zeros(TEXT_SIZE)
  type ExtraBytes = s: seq<byte> | |s| == EXTRA_SIZE witness Zeros(EXTRA_SIZE)

  datatype GameInfo = GameInfo(
    gameIndex: u32,
    gameState: u32,
    creationTime: u32,
    host: NetAddress,
    hostLatency: u32,
    hostLastTime: u32,
    categoryBits: u32,
    gameName: TextBuffer,
    description: TextBuffer,
    next: bool,
    extraPointer: bool,
    extraBytes: u32,
    programId: u32,
    versionId: u32)

  /** `next` and `extraPointer` say whether the two pointers are set. */
  datatype AdFile = AdFile(info: GameInfo, extra: ExtraBytes, turnsPerSecond: u32)

  const ZERO_AD: AdFile := AdFile(
    GameInfo(0, 0, 0, Zeros(16), 0, 0, 0, Zeros(TEXT_SIZE), Zeros(TEXT_SIZE), false, false, 0, 0, 0), Zeros(EXTRA_SIZE), 0)

  /** The keys of the Json objects: game_index, game_state and so on. */
  datatype Key =
    | KeyGameIndex | KeyGameState | KeyCreationTime | KeyHost | KeyHostLatency | KeyHostLastTime | KeyCategoryBits
    | KeyGameName | KeyDescription | KeyExtraBytes | KeyProgramId | KeyVersionId | KeyGameInfo | KeyCrownlinkMode

  datatype Json = Number(n: nat) | Text(bytes: seq<byte>) | Binary(bytes: seq<byte>) | Object(fields: map<Key, Json>)

  // ----- Latin-1 and UTF-8 -----

  function LatinToUtf8(s: seq<byte>): seq<byte> {
    if s == [] then []
    else (if s[0] < 0x80 then [s[0]] else [0xC0 + s[0] / 64, 0x80 + s[0] % 64]) + LatinToUtf8(s[1..])
  }

  /** Section 3 of RFC 3629, as far as it yields characters up to U+00FF. */
  function Utf8ToLatin(s: seq<byte>): Option<seq<byte>> {
    if s == [] then Some([])
    else if s[0] < 0x80 then
      match Utf8ToLatin(s[1..]) case None => None case Some(rest) => Some([s[0]] + rest)
    else if 0xC2 <= s[0] <= 0xC3 && |s| > 1 && 0x80 <= s[1] < 0xC0 then
      match Utf8ToLatin(s[2..]) case None => None case Some(rest) => Some([(s[0] - 0xC0) * 64 + (s[1] - 0x80)] + rest)
    else None
  }

  lemma {:induction false} Utf8RoundTrip(s: seq<byte>)
    ensures Utf8ToLatin(LatinToUtf8(s)) == Some(s)
    ensures |LatinToUtf8(s)| <= 2 * |s|
  {
    if s == [] {
    } else {
      var rest := LatinToUtf8(s[1..]);
      Utf8RoundTrip(s[1..]);
      assert [s[0]] + s[1..] == s;
      if s[0] < 0x80 {
        assert LatinToUtf8(s)[1..] == rest;
      } else {
        assert LatinToUtf8(s)[2..] == rest;
      }
    }
  }

  /**
   The form is that of section 3 of RFC 3629: ASCII stands for itself, and every other character is a lead byte 110xxxxx and
   a continuation byte 10xxxxxx that carry its eight bits.
   */
  lemma Utf8IsExact(s: seq<byte>, b: byte)
    ensures LatinToUtf8([]) == []
    ensures b < 0x80 ==> LatinToUtf8([b] + s) == [b] + LatinToUtf8(s)
    ensures b >= 0x80 ==>
      exists lead: byte, rest: byte ::
        && LatinToUtf8([b] + s) == [lead, rest] + LatinToUtf8(s)
        && 0xC0 <= lead < 0xE0 && 0x80 <= rest < 0xC0
        && b as nat == (lead as nat - 0xC0) * 64 + (rest as nat - 0x80)
  {
    assert ([b] + s)[1..] == s;
    if b >= 0x80 {
      assert LatinToUtf8([b] + s) == [0xC0 + b / 64, 0x80 + b % 64] + LatinToUtf8(s);
    }
  }

  // ----- Fixed buffers -----

  /** The text in a buffer: what comes before the first NUL. */
  function CText(buffer: seq<byte>): (r: seq<byte>)
    ensures |r| <= |buffer|
  {
    if buffer == [] || buffer[0] == 0 then [] else [buffer[0]] + CText(buffer[1..])
  }

  predicate NulFree(s: seq<byte>) {
    forall i :: 0 <= i < |s| ==> s[i] != 0
  }

  /** Writes over the front of a buffer. */
  function WriteFront(buffer: seq<byte>, s: seq<byte>): (r: seq<byte>)
    requires |s| <= |buffer|
    ensures |r| == |buffer|
  {
    s + buffer[|s|..]
  }

  lemma {:induction false} TextOfFilledBuffer(s: seq<byte>, rest: seq<byte>)
    requires NulFree(s) && (rest != [] ==> rest[0] == 0)
    ensures CText(s + rest) == s
  {
    if s != [] {
      TextOfFilledBuffer(s[1..], rest);
      assert (s + rest)[1..] == s[1..] + rest;
      assert [s[0]] + s[1..] == s;
    } else {
      assert s + rest == rest;
    }
  }

  lemma {:induction false} Utf8IsNulFree(s: seq<byte>)
    requires NulFree(s)
    ensures NulFree(LatinToUtf8(s))
  {
    if s == [] {
    } else {
      Utf8IsNulFree(s[1..]);
    }
  }

  // ----- to_json -----

  /** The buffer holds a terminated string, which is what the conversion expects. */
  predicate Terminated(buffer: TextBuffer) {
    |CText(buffer)| < TEXT_SIZE
  }

  /** A terminated text of Latin-1 always fits the 256 bytes for its UTF-8 form, with the terminator. */
  lemma Utf8FormFits(buffer: TextBuffer)
    requires Terminated(buffer)
    ensures |LatinToUtf8(CText(buffer))| + 1 < UTF8_BUFFER_SIZE
  {
    Utf8RoundTrip(CText(buffer));
  }

  /** A text field: converted within a zeroed buffer and read from it as a C string. */
  function TextToJson(buffer: TextBuffer): Json
    requires Terminated(buffer)
  {
    Utf8FormFits(buffer);
    Json.Text(CText(WriteFront(Zeros(UTF8_BUFFER_SIZE), LatinToUtf8(CText(buffer)))))
  }

  predicate Sendable(a: AdFile) {
    Terminated(a.info.gameName) && Terminated(a.info.description)
  }

  function InfoToJson(a: AdFile): Json
    requires Sendable(a)
  {
    var g := a.info;
    Object(map[
      KeyGameIndex := Number(g.gameIndex),
      KeyGameState := Number(g.gameState),
      KeyCreationTime := Number(g.creationTime),
      KeyHost := Binary(g.host),
      KeyHostLatency := Number(g.hostLatency),
      KeyHostLastTime := Number(g.hostLastTime),
      KeyCategoryBits := Number(g.categoryBits),
      KeyGameName := TextToJson(g.gameName),
      KeyDescription := TextToJson(g.description),
      KeyExtraBytes := Number(g.extraBytes),
      KeyProgramId := Number(g.programId),
      KeyVersionId := Number(g.versionId)])
  }

  function AdToJson(a: AdFile): Json
    requires Sendable(a)
  {
    Object(map[
      KeyGameInfo := InfoToJson(a),
      KeyExtraBytes := Binary(a.extra),
      KeyCrownlinkMode := Number(a.turnsPerSecond)])
  }

  // ----- from_json -----

  function Field(j: Json, key: Key): Option<Json> {
    if j.Object? && key in j.fields then Some(j.fields[key]) else None
  }

  function NumberField(j: Json, key: Key): Option<u32> {
    match Field(j, key)
    case Some(Number(n)) => Some(n % 0x1_0000_0000)
    case _ => None
  }

  function BinaryField(j: Json, key: Key): Option<seq<byte>> {
    match Field(j, key)
    case Some(Binary(bytes)) => Some(bytes)
    case _ => None
  }

  /** A text in Latin-1. One that is no valid UTF-8 converts to nothing, and one that is too long has no place. */
  function TextField(j: Json, key: Key): (r: Option<seq<byte>>)
    ensures r.Some? ==> |r.value| <= TEXT_SIZE
  {
    match Field(j, key)
    case Some(Text(bytes)) =>
      (match Utf8ToLatin(bytes)
       case None => Some([])
       case Some(latin) => if |latin| <= TEXT_SIZE then Some(latin) else None)
    case _ => None
  }

  function CopyAddress(target: NetAddress, bytes: seq<byte>): NetAddress {
    WriteFront(target, if |bytes| <= 16 then bytes else bytes[..16])
  }

  /** Fills a struct from Json; None if a field is missing or of another kind. No terminator is written. */
  function InfoFromJson(j: Json, target: GameInfo): Option<GameInfo> {
    var gameIndex :- NumberField(j, KeyGameIndex);
    var gameState :- NumberField(j, KeyGameState);
    var creationTime :- NumberField(j, KeyCreationTime);
    var host :- BinaryField(j, KeyHost);
    var hostLatency :- NumberField(j, KeyHostLatency);
    var hostLastTime :- NumberField(j, KeyHostLastTime);
    var categoryBits :- NumberField(j, KeyCategoryBits);
    var name :- TextField(j, KeyGameName);
    var description :- TextField(j, KeyDescription);
    var extraBytes :- NumberField(j, KeyExtraBytes);
    var programId :- NumberField(j, KeyProgramId);
    var versionId :- NumberField(j, KeyVersionId);
    Some(GameInfo(gameIndex, gameState, creationTime, CopyAddress(target.host, host), hostLatency, hostLastTime,
                  categoryBits, WriteFront(target.gameName, name), WriteFront(target.description, description), false, false,
                  extraBytes, programId, versionId))
  }

  function AdFromJson(j: Json, target: AdFile): Option<AdFile> {
    var info :- Field(j, KeyGameInfo);
    var g :- InfoFromJson(info, target.info);
    var turns :- NumberField(j, KeyCrownlinkMode);
    var extra :- BinaryField(j, KeyExtraBytes);
    if |extra| > EXTRA_SIZE then None else Some(AdFile(g, WriteFront(target.extra, extra), turns))
  }

  // ----- Round trip -----

  /** The ad without its pointers. */
  function Detached(a: AdFile): AdFile {
    a.(info := a.info.(next := false, extraPointer := false))
  }

  /** The bytes behind the text are zero. */
  predicate Padded(buffer: TextBuffer) {
    buffer == CText(buffer) + Zeros(TEXT_SIZE - |CText(buffer)|)
  }

  lemma {:induction false} CTextIsNulFree(buffer: seq<byte>)
    ensures NulFree(CText(buffer))
    ensures CText(buffer) <= buffer
    ensures |CText(buffer)| < |buffer| ==> buffer[|CText(buffer)|] == 0
  {
    if buffer == [] || buffer[0] == 0 {
    } else {
      CTextIsNulFree(buffer[1..]);
      assert buffer == [buffer[0]] + buffer[1..];
    }
  }

  lemma TextRoundTrip(buffer: TextBuffer, j: Json, key: Key)
    requires Terminated(buffer) && Field(j, key) == Some(TextToJson(buffer))
    ensures TextField(j, key) == Some(CText(buffer))
  {
    var text := CText(buffer);
    var utf8 := LatinToUtf8(text);
    CTextIsNulFree(buffer);
    Utf8IsNulFree(text);
    Utf8FormFits(buffer);
    TextOfFilledBuffer(utf8, Zeros(UTF8_BUFFER_SIZE)[|utf8|..]);
    Utf8RoundTrip(text);
  }

  /** The struct a reader gets: every field, and each text in front of what its buffer held before. */
  function Arrived(a: AdFile, target: AdFile): AdFile {
    Detached(a).(info := Detached(a).info.(
      gameName := WriteFront(target.info.gameName, CText(a.info.gameName)),
      description := WriteFront(target.info.description, CText(a.info.description))))
  }

  /** The object's fields are those of the ad. */
  ghost predicate Describes(j: Json, a: AdFile)
    requires Sendable(a)
  {
    && Field(j, KeyGameIndex) == Some(Number(a.info.gameIndex))
    && Field(j, KeyGameState) == Some(Number(a.info.gameState))
    && Field(j, KeyCreationTime) == Some(Number(a.info.creationTime))
    && Field(j, KeyHost) == Some(Binary(a.info.host))
    && Field(j, KeyHostLatency) == Some(Number(a.info.hostLatency))
    && Field(j, KeyHostLastTime) == Some(Number(a.info.hostLastTime))
    && Field(j, KeyCategoryBits) == Some(Number(a.info.categoryBits))
    && Field(j, KeyGameName) == Some(TextToJson(a.info.gameName))
    && Field(j, KeyDescription) == Some(TextToJson(a.info.description))
    && Field(j, KeyExtraBytes) == Some(Number(a.info.extraBytes))
    && Field(j, KeyProgramId) == Some(Number(a.info.programId))
    && Field(j, KeyVersionId) == Some(Number(a.info.versionId))
  }

  lemma InfoArrives(j: Json, a: AdFile, target: AdFile)
    requires Sendable(a) && Describes(j, a)
    ensures InfoFromJson(j, target.info) == Some(Arrived(a, target).info)
  {
    TextRoundTrip(a.info.gameName, j, KeyGameName);
    TextRoundTrip(a.info.description, j, KeyDescription);
    assert WriteFront(target.info.host, a.info.host) == a.info.host;
  }

  lemma SentAdArrives(a: AdFile, target: AdFile)
    requires Sendable(a)
    ensures AdFromJson(AdToJson(a), target) == Some(Arrived(a, target))
  {
    FieldsSent(a);
    InfoArrives(InfoToJson(a), a, target);
    EnvelopeArrives(a, target);
  }

  lemma FieldsSent(a: AdFile)
    requires Sendable(a)
    ensures Describes(InfoToJson(a), a)
  {
  }

  lemma EnvelopeArrives(a: AdFile, target: AdFile)
    requires Sendable(a) && InfoFromJson(InfoToJson(a), target.info) == Some(Arrived(a, target).info)
    ensures AdFromJson(AdToJson(a), target) == Some(Arrived(a, target))
  {
    EnvelopeSent(a);
    assert WriteFront(target.extra, a.extra) == a.extra;
  }

  lemma EnvelopeSent(a: AdFile)
    requires Sendable(a)
    ensures
      var j := AdToJson(a);
      && Field(j, KeyGameInfo) == Some(InfoToJson(a)) && NumberField(j, KeyCrownlinkMode) == Some(a.turnsPerSecond)
      && BinaryField(j, KeyExtraBytes) == Some(a.extra)
  {
  }

  lemma PaddedIsZeroFilled(buffer: TextBuffer)
    ensures WriteFront(Zeros(TEXT_SIZE), CText(buffer)) == buffer <==> Padded(buffer)
  {
    assert Zeros(TEXT_SIZE)[|CText(buffer)|..] == Zeros(TEXT_SIZE - |CText(buffer)|);
  }

  /** Into a zeroed struct, an ad comes back whole but for its pointers exactly if its texts are padded with zeros. */
  lemma AdRoundTrip(a: AdFile)
    requires Sendable(a)
    ensures AdFromJson(AdToJson(a), ZERO_AD) == Some(Detached(a))
       <==> Padded(a.info.gameName) && Padded(a.info.description)
  {
    SentAdArrives(a, ZERO_AD);
    PaddedIsZeroFilled(a.info.gameName);
    PaddedIsZeroFilled(a.info.description);
    assert Arrived(a, ZERO_AD).info.gameName == Detached(a).info.gameName <==> Padded(a.info.gameName);
  }

  /** Into a struct that was used before, the name is the one that was sent exactly if the old one ended no later. */
  lemma NameInUsedStruct(a: AdFile, target: AdFile)
    requires Sendable(a)
    ensures
      var r := AdFromJson(AdToJson(a), target);
      && r.Some?
      && (CText(r.value.info.gameName) == CText(a.info.gameName) <==>
          target.info.gameName[|CText(a.info.gameName)|] == 0)
  {
    SentAdArrives(a, target);
    var text := CText(a.info.gameName);
    var rest := target.info.gameName[|text|..];
    CTextIsNulFree(a.info.gameName);
    if rest[0] == 0 {
      TextOfFilledBuffer(text, rest);
    } else {
      TextGoesOn(text, rest);
    }
  }

  lemma {:induction false} TextGoesOn(s: seq<byte>, rest: seq<byte>)
    requires NulFree(s) && rest != [] && rest[0] != 0
    ensures |CText(s + rest)| > |s|
  {
    if s != [] {
      TextGoesOn(s[1..], rest);
      assert (s + rest)[1..] == s[1..] + rest;
    } else {
      assert s + rest == rest;
    }
  }

  // ----- create_ad -----

  /** The fields an ad of our own is given; the rest are zero. */
  function CreateAd(name: seq<byte>, stat: seq<byte>, state: u32, userData: seq<byte>, programId: u32, versionId: u32,
                    turnsPerSecond: u32): AdFile
    requires |name| <= MAX_NAME && |stat| <= MAX_NAME && |userData| <= EXTRA_SIZE
  {
    var info := ZERO_AD.info.(
      gameName := WriteFront(Zeros(TEXT_SIZE), name),
      description := WriteFront(Zeros(TEXT_SIZE), stat),
      gameState := state, programId := programId, versionId := versionId, hostLatency := 0x50, categoryBits := 0xa7,
      extraBytes := |userData|, extraPointer := true);
    AdFile(info, WriteFront(Zeros(EXTRA_SIZE), userData), turnsPerSecond)
  }

  /** Every ad of our own survives the journey, with any name and description of up to 127 characters of Latin-1. */
  lemma CreatedAdRoundTrip(
    name: seq<byte>, stat: seq<byte>, state: u32, userData: seq<byte>, programId: u32, versionId: u32,
    turnsPerSecond: u32)
    requires |name| <= MAX_NAME && |stat| <= MAX_NAME && |userData| <= EXTRA_SIZE && NulFree(name) && NulFree(stat)
    ensures
      var a := CreateAd(name, stat, state, userData, programId, versionId, turnsPerSecond);
      && CText(a.info.gameName) == name && CText(a.info.description) == stat
      && Sendable(a) && AdFromJson(AdToJson(a), ZERO_AD) == Some(Detached(a))
  {
    var a := CreateAd(name, stat, state, userData, programId, versionId, turnsPerSecond);
    TextOfFilledBuffer(name, Zeros(TEXT_SIZE)[|name|..]);
    TextOfFilledBuffer(stat, Zeros(TEXT_SIZE)[|stat|..]);
    assert Padded(a.info.gameName) && Padded(a.info.description);
    AdRoundTrip(a);
  }

  /** Each field as the reader of a created ad finds it. */
  lemma CreatedAdIsExact(
    name: seq<byte>, stat: seq<byte>, state: u32, userData: seq<byte>, programId: u32, versionId: u32, turnsPerSecond: u32)
    requires |name| <= MAX_NAME && |stat| <= MAX_NAME && |userData| <= EXTRA_SIZE && NulFree(name) && NulFree(stat)
    ensures
      var a := CreateAd(name, stat, state, userData, programId, versionId, turnsPerSecond);
      && Sendable(a)
      && var r := AdFromJson(AdToJson(a), ZERO_AD);
      && r.Some?
      && var g := r.value.info;
         && CText(g.gameName) == name && CText(g.description) == stat && g.gameState == state
         && g.programId == programId && g.versionId == versionId && g.hostLatency == 0x50 && g.categoryBits == 0xa7
         && g.extraBytes == |userData|
         && r.value.extra == userData + Zeros(EXTRA_SIZE - |userData|) && r.value.turnsPerSecond == turnsPerSecond
         && g.gameIndex == 0 && g.creationTime == 0 && g.hostLastTime == 0 && g.host == Zeros(16)
         && !g.next && !g.extraPointer
  {
    CreatedAdRoundTrip(name, stat, state, userData, programId, versionId, turnsPerSecond);
    assert Zeros(EXTRA_SIZE)[|userData|..] == Zeros(EXTRA_SIZE - |userData|);
  }
}
