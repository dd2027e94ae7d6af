/** The values that pass between the gateway's components. */
module Domain {

  datatype Option<+T> = None | Some(value: T)

  datatype Result<+T, +E> = Ok(value: T) | Err(error: E)

  /** What travels on a wire: one character a byte. */
  type Bytes = seq<char>

  type Protocol = string

  const PJLINK: Protocol := "PJLink"

  datatype Value = Text(text: string) | Number(number: int)

  /** The data map of a telemetry message. */
  type Data = map<string, Value>

  /** A data map as the parsers and the router share and fill it. */
  class DataMap {
    var entries: Data

    constructor (entries: Data)
      ensures this.entries == entries
    {
      this.entries := entries;
    }
  }

  datatype Status = Online | Offline | Degraded | Error | Maintenance | Unknown

  /** The part of a device record that only a reload or a registration may set. */
  datatype Config = Config(
    id: string, name: string, model: string, vendor: string, room: string, macAddress: string,
    ip: string, port: int, protocol: Protocol, capabilities: seq<string>)

  /** A device record; a `metadata` of None is an absent map, as against an empty one. */
  datatype Device = Device(
    config: Config, telemetry: Data,
    status: Status, lastSeen: int, metadata: Option<map<string, string>>)

  datatype Command = Command(correlationId: string, deviceId: string, name: string)

  datatype Telemetry = Telemetry(correlationId: string, deviceId: string, timestamp: int, data: Data)
}
