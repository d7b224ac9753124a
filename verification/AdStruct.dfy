/** The struct that `from_json` fills: its texts and bytes are fixed buffers, written from the front. */
module AdStructs {
  import opened AdCodec
  import opened Basics
  import opened Packets

  class AdStruct {
    var gameIndex: u32
    var gameState: u32
    var creationTime: u32
    var hostLatency: u32
    var hostLastTime: u32
    var categoryBits: u32
    var next: bool
    var extraPointer: bool
    var extraBytes: u32
    var programId: u32
    var versionId: u32
    var turnsPerSecond: u32
    const host: array<byte>
    const gameName: array<byte>
    const description: array<byte>
    const extra: array<byte>

    /** The buffers have their sizes and do not overlap. */
    ghost predicate Valid() {
      && host.Length == 16 && gameName.Length == TEXT_SIZE && description.Length == TEXT_SIZE
      && extra.Length == EXTRA_SIZE
      && host != gameName && host != description && host != extra
      && gameName != description && gameName != extra && description != extra
    }

    function Info(): GameInfo
      requires Valid()
      reads this, host, gameName, description
    {
      GameInfo(gameIndex, gameState, creationTime, host[..], hostLatency, hostLastTime, categoryBits, gameName[..],
               description[..], next, extraPointer, extraBytes, programId, versionId)
    }

    function State(): AdFile
      requires Valid()
      reads this, host, gameName, description, extra
    {
      AdFile(Info(), extra[..], turnsPerSecond)
    }

    constructor ()
      ensures Valid() && State() == ZERO_AD
      ensures fresh(host) && fresh(gameName) && fresh(description) && fresh(extra)
    {
      gameIndex, gameState, creationTime, hostLatency, hostLastTime, categoryBits := 0, 0, 0, 0, 0, 0;
      next, extraPointer, extraBytes, programId, versionId, turnsPerSecond := false, false, 0, 0, 0, 0;
      host := new byte[16](_ => 0);
      gameName := new byte[TEXT_SIZE](_ => 0);
      description := new byte[TEXT_SIZE](_ => 0);
      extra := new byte[EXTRA_SIZE](_ => 0);
      new;
      assert host[..] == Zeros(16) && gameName[..] == Zeros(TEXT_SIZE);
      assert description[..] == Zeros(TEXT_SIZE) && extra[..] == Zeros(EXTRA_SIZE);
    }

    /** Copies bytes to the front of a buffer. */
    static method CopyInto(buffer: array<byte>, bytes: seq<byte>)
      requires |bytes| <= buffer.Length
      modifies buffer
      ensures buffer[..] == WriteFront(old(buffer[..]), bytes)
    {
      for i := 0 to |bytes|
        invariant buffer[..i] == bytes[..i]
        invariant buffer[i..] == old(buffer[..])[i..]
      {
        buffer[i] := bytes[i];
      }
    }

    method InfoFromJson(j: Json) returns (ok: bool)
      requires Valid()
      modifies this, host, gameName, description
      ensures turnsPerSecond == old(turnsPerSecond)
      ensures ok <==> AdCodec.InfoFromJson(j, old(Info())).Some?
      ensures ok ==> Info() == AdCodec.InfoFromJson(j, old(Info())).value
    {
      ok := false;
      var index := NumberField(j, KeyGameIndex);
      if index.None? { return; }
      gameIndex := index.value;
      var state := NumberField(j, KeyGameState);
      if state.None? { return; }
      gameState := state.value;
      var created := NumberField(j, KeyCreationTime);
      if created.None? { return; }
      creationTime := created.value;
      var address := BinaryField(j, KeyHost);
      if address.None? { return; }
      CopyInto(host, if |address.value| <= 16 then address.value else address.value[..16]);
      var more := NumbersFromJson(j);
      if !more { return; }
      ok := TextsFromJson(j);
    }

    /** The numbers between the host and the texts. */
    method NumbersFromJson(j: Json) returns (ok: bool)
      requires Valid()
      modifies this
      ensures turnsPerSecond == old(turnsPerSecond)
      ensures ok <==>
              && NumberField(j, KeyHostLatency).Some? && NumberField(j, KeyHostLastTime).Some?
              && NumberField(j, KeyCategoryBits).Some?
      ensures ok ==>
              Info() == old(Info()).(
                hostLatency := NumberField(j, KeyHostLatency).value,
                hostLastTime := NumberField(j, KeyHostLastTime).value,
                categoryBits := NumberField(j, KeyCategoryBits).value)
    {
      ok := false;
      var latency := NumberField(j, KeyHostLatency);
      if latency.None? { return; }
      hostLatency := latency.value;
      var lastTime := NumberField(j, KeyHostLastTime);
      if lastTime.None? { return; }
      hostLastTime := lastTime.value;
      var category := NumberField(j, KeyCategoryBits);
      if category.None? { return; }
      categoryBits := category.value;
      ok := true;
    }

    /** The second half of the fields, from the texts on. */
    method TextsFromJson(j: Json) returns (ok: bool)
      requires Valid()
      modifies this, gameName, description
      ensures turnsPerSecond == old(turnsPerSecond)
      ensures ok <==>
              && TextField(j, KeyGameName).Some? && TextField(j, KeyDescription).Some?
              && NumberField(j, KeyExtraBytes).Some? && NumberField(j, KeyProgramId).Some?
              && NumberField(j, KeyVersionId).Some?
      ensures ok ==>
              Info() == old(Info()).(
                gameName := WriteFront(old(gameName[..]), TextField(j, KeyGameName).value),
                description := WriteFront(old(description[..]), TextField(j, KeyDescription).value),
                next := false, extraPointer := false,
                extraBytes := NumberField(j, KeyExtraBytes).value,
                programId := NumberField(j, KeyProgramId).value,
                versionId := NumberField(j, KeyVersionId).value)
    {
      ok := false;
      var name := TextField(j, KeyGameName);
      if name.None? { return; }
      CopyInto(gameName, name.value);
      var text := TextField(j, KeyDescription);
      if text.None? { return; }
      CopyInto(description, text.value);
      var size := NumberField(j, KeyExtraBytes);
      if size.None? { return; }
      extraBytes := size.value;
      var program := NumberField(j, KeyProgramId);
      if program.None? { return; }
      programId := program.value;
      var version := NumberField(j, KeyVersionId);
      if version.None? { return; }
      versionId := version.value;
      next, extraPointer := false, false;
      ok := true;
    }

    /** On failure the fields read so far keep their new values. */
    method FromJson(j: Json) returns (ok: bool)
      requires Valid()
      modifies this, host, gameName, description, extra
      ensures ok <==> AdFromJson(j, old(State())).Some?
      ensures ok ==> State() == AdFromJson(j, old(State())).value
    {
      ok := false;
      var info := Field(j, KeyGameInfo);
      if info.None? { return; }
      var filled := InfoFromJson(info.value);
      if !filled { return; }
      var turns := NumberField(j, KeyCrownlinkMode);
      if turns.None? { return; }
      turnsPerSecond := turns.value;
      var bytes := BinaryField(j, KeyExtraBytes);
      if bytes.None? || |bytes.value| > EXTRA_SIZE { return; }
      CopyInto(extra, bytes.value);
      ok := true;
    }

    static method Zero(buffer: array<byte>)
      modifies buffer
      ensures buffer[..] == Zeros(buffer.Length)
    {
      forall i | 0 <= i < buffer.Length {
        buffer[i] := 0;
      }
      assert buffer[..] == Zeros(buffer.Length);
    }

    method ClearBuffers()
      requires Valid()
      modifies host, gameName, description, extra
      ensures host[..] == Zeros(16) && gameName[..] == Zeros(TEXT_SIZE)
      ensures description[..] == Zeros(TEXT_SIZE) && extra[..] == Zeros(EXTRA_SIZE)
    {
      Zero(host);
      Zero(gameName);
      Zero(description);
      Zero(extra);
    }

    method Clear()
      requires Valid()
      modifies this, host, gameName, description, extra
      ensures State() == ZERO_AD
    {
      ClearBuffers();
      gameIndex, gameState, creationTime, hostLatency, hostLastTime, categoryBits := 0, 0, 0, 0, 0, 0;
      next, extraPointer, extraBytes, programId, versionId, turnsPerSecond := false, false, 0, 0, 0, 0;
    }

    /** `strcpy_s` and `memcpy` into a struct that is cleared first. */
    method CreateAd(
      name: seq<byte>, stat: seq<byte>, state: u32, userData: seq<byte>, program: u32, version: u32, turns: u32)
      requires Valid() && |name| <= MAX_NAME && |stat| <= MAX_NAME && |userData| <= EXTRA_SIZE
      modifies this, host, gameName, description, extra
      ensures State() == AdCodec.CreateAd(name, stat, state, userData, program, version, turns)
    {
      Clear();
      turnsPerSecond := turns;
      CopyInto(gameName, name);
      CopyInto(description, stat);
      gameState, programId, versionId, hostLatency, categoryBits := state, program, version, 0x50, 0xa7;
      CopyInto(extra, userData);
      extraBytes, extraPointer := |userData|, true;
    }
  }
}
