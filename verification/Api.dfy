/** Shared values: the panel's records and the usual optional value. */
module Api {

  datatype Option<+T> = None | Some(value: T)

  /** A Go `int` on a 64-bit platform. */
  type int64 = x: int | -0x8000_0000_0000_0000 <= x < 0x8000_0000_0000_0000

  /** A Go `uint64`. */
  type uint64 = x: int | 0 <= x < 0x1_0000_0000_0000_0000

  /** One user record as the panel publishes it. */
  datatype UserInfo = UserInfo(
    uid: int64,
    email: string,
    passwd: string,
    port: nat,
    cipher: string,
    speedLimit: uint64,
    deviceLimit: int,
    protocol: string,
    protocolParam: string,
    obfs: string,
    obfsParam: string,
    uuid: string,
    alterId: nat
  )

  /** One row of a traffic report. */
  datatype UserTraffic = UserTraffic(uid: int64, email: string, upload: int, download: int)
}
