/** The per-connection session record that the server creates on admission
    and the buffering strategy operates on. Only the operations the core
    calls are modelled: appending audio, recording a configuration update and
    bumping the segment counter. */
module Client {

  /** One byte of raw PCM audio. */
  newtype byte = x: int | 0 <= x < 256

  /** A decoded JSON value, as `json.loads` produces it. */
  datatype Json =
    | JObject(fields: map<string, Json>)
    | JArray(items: seq<Json>)
    | JString(text: string)
    | JNumber(number: real)
    | JBool(flag: bool)
    | JNull

  /** A connected client: its id, the audio format fixed at connection time,
      the live buffer, the scratch buffer owned by a finalize pass, the
      segment (file) counter, and the configuration updates it has received,
      in arrival order. */
  datatype Session = Session(
    clientId: string,
    samplingRate: int,
    samplesWidth: int,
    buffer: seq<byte>,
    scratch: seq<byte>,
    fileCounter: nat,
    configUpdates: seq<Json>)

  /** A freshly admitted client: both buffers empty, counter at zero. */
  function NewSession(clientId: string, samplingRate: int, samplesWidth: int): (s: Session)
    ensures s.clientId == clientId && s.samplingRate == samplingRate && s.samplesWidth == samplesWidth
    ensures s.buffer == [] && s.scratch == [] && s.fileCounter == 0 && s.configUpdates == []
  {
    Session(clientId, samplingRate, samplesWidth, [], [], 0, [])
  }

  /** Append an inbound binary frame, verbatim, to the live buffer. */
  function AppendAudioData(s: Session, data: seq<byte>): (s': Session)
    ensures s'.buffer == s.buffer + data
    ensures s' == s.(buffer := s'.buffer)
  {
    s.(buffer := s.buffer + data)
  }

  /** Apply the `data` of a `config` control message. */
  function UpdateConfig(s: Session, data: Json): (s': Session)
    ensures s'.configUpdates == s.configUpdates + [data]
    ensures s' == s.(configUpdates := s'.configUpdates)
  {
    s.(configUpdates := s.configUpdates + [data])
  }

  /** Count one more finalized segment. */
  function IncrementFileCounter(s: Session): (s': Session)
    ensures s'.fileCounter == s.fileCounter + 1
    ensures s' == s.(fileCounter := s'.fileCounter)
  {
    s.(fileCounter := s.fileCounter + 1)
  }
}
