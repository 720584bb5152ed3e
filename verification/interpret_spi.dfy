/** The command dispatch rule a slave applies to a message it has received
    over SPI (interpretSPI.h). The message arrives already decoded as a
    command byte and an array of command-information bytes; dispatch looks
    only at the command and hands a fixed prefix of the information bytes
    to at most one actuator collaborator. The collaborators (the pump
    driver and the audio module) are opaque: an `Action` records which
    one is called and with which bytes, not what the call does. */
module InterpretSpi {
  import opened Bytes

  /** Command codes. */
  const WATER_PLANT: Byte := 0x01
  const REQUEST_SENSOR_DATA: Byte := 0x02
  const AUDIO: Byte := 0x03

  /** A received message: the command byte and its information bytes. The
      record is passed to dispatch by value, so dispatch cannot change it. */
  datatype Message = Message(command: Byte, commandInfo: seq<Byte>)

  /** The one collaborator call a dispatch makes, if any. */
  datatype Action =
    | NoAction
    | TogglePump(amount: Byte)
    | Audio(first: Byte, second: Byte, third: Byte)

  /** The bytes handed to the collaborator, in argument order. */
  function Arguments(a: Action): seq<Byte> {
    match a
    case NoAction => []
    case TogglePump(amount) => [amount]
    case Audio(first, second, third) => [first, second, third]
  }

  /** How many information bytes dispatch reads for a command: one for
      watering, three for audio, none otherwise. */
  function InfoBytesRead(command: Byte): nat {
    if command == WATER_PLANT then 1
    else if command == AUDIO then 3
    else 0
  }

  /** The information array is long enough for every byte dispatch reads;
      the source indexes it without a check. */
  predicate Readable(received: Message) {
    InfoBytesRead(received.command) <= |received.commandInfo|
  }

  /** `testReceived`: choose the collaborator call for a received message.
      Each case of the source's switch ends in `break` and there is no
      default case, so exactly one of the three outcomes results. The
      sensor request prints a message only, its sampling call being
      commented out; printing is not modelled. */
  function TestReceived(received: Message): (r: Action)
    requires Readable(received)
    ensures r.TogglePump? <==> received.command == WATER_PLANT
    ensures r.Audio? <==> received.command == AUDIO
    ensures r.NoAction? <==> received.command != WATER_PLANT && received.command != AUDIO
    ensures Arguments(r) == received.commandInfo[..InfoBytesRead(received.command)]
  {
    var info := received.commandInfo;
    if received.command == WATER_PLANT then
      TogglePump(info[0])
    else if received.command == REQUEST_SENSOR_DATA then
      NoAction
    else if received.command == AUDIO then
      Audio(info[0], info[1], info[2])
    else
      NoAction
  }

  /** The three command codes are pairwise distinct, so no message matches
      two cases. */
  lemma CommandCodesDistinct()
    ensures WATER_PLANT != REQUEST_SENSOR_DATA
    ensures WATER_PLANT != AUDIO
    ensures REQUEST_SENSOR_DATA != AUDIO
  {
  }

  /** Watering toggles the pump once, with the first information byte. */
  lemma WaterPlantTogglesPump(received: Message)
    requires received.command == WATER_PLANT && 1 <= |received.commandInfo|
    ensures TestReceived(received) == TogglePump(received.commandInfo[0])
  {
  }

  /** A sensor-data request drives no actuator. */
  lemma RequestSensorDataDoesNothing(received: Message)
    requires received.command == REQUEST_SENSOR_DATA
    ensures TestReceived(received) == NoAction
  {
  }

  /** Audio forwards the first three information bytes, unchanged and in
      order, as one audio command. */
  lemma AudioForwardsThreeBytes(received: Message)
    requires received.command == AUDIO && 3 <= |received.commandInfo|
    ensures TestReceived(received)
      == Audio(received.commandInfo[0], received.commandInfo[1], received.commandInfo[2])
  {
  }

  /** An unknown command is not an error: it produces no call at all. */
  lemma UnknownCommandDoesNothing(received: Message)
    requires received.command !in {WATER_PLANT, REQUEST_SENSOR_DATA, AUDIO}
    ensures TestReceived(received) == NoAction
  {
  }

  /** Dispatch depends on nothing but the command and the information bytes
      it reads: messages that agree there are dispatched alike, whatever
      follows in their information arrays. */
  lemma DispatchReadsOnlyPrefix(a: Message, b: Message)
    requires Readable(a) && Readable(b)
    requires a.command == b.command
    requires a.commandInfo[..InfoBytesRead(a.command)] == b.commandInfo[..InfoBytesRead(b.command)]
    ensures TestReceived(a) == TestReceived(b)
  {
  }
}
