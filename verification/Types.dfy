// Records shared by the gateway, Redis and the vehicle.
module Types {
  datatype Option<+T> = None | Some(value: T)

  datatype SessionStatus = Active | Released | Expired | Revoked

  // The lease record kept under control:<vehicle>.
  datatype ControlSession = ControlSession(
    sessionId: string,
    vehicleId: string,
    operatorId: string,
    publicKey: string,
    status: SessionStatus,
    createdAt: int,
    expiresAt: int)

  datatype VideoMode = Standby | Active

  // The record kept under video_session:<vehicle>; "" is an absent id, 0 an absent deadline.
  datatype VideoSession = VideoSession(
    vehicleId: string,
    sessionId: string,
    mode: VideoMode,
    viewers: int,
    controller: string,
    graceDeadline: int,
    createdAt: int,
    expiresAt: int)

  // A Redis value with its expiry instant; it is readable while now <= deadline.
  datatype Entry<+T> = Entry(value: T, deadline: int)

  // The four maps that share one Redis keyspace.
  datatype Store = Store(
    lease: map<string, Entry<ControlSession>>,
    index: map<string, Entry<string>>,
    video: map<string, Entry<VideoSession>>,
    viewer: map<string, Entry<string>>)

  const EMPTY_STORE := Store(map[], map[], map[], map[])

  // GET: an expired entry reads as absent.
  function Lookup<T>(m: map<string, Entry<T>>, key: string, now: int): Option<T> {
    if key in m && now <= m[key].deadline then Some(m[key].value) else None
  }
}
