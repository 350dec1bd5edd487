/** The relay's store (lib/vox_store) and its services (lib/vox_relay) as functions from state to state.
    A repository call fails only when a key, uniqueness or foreign-key constraint of the schema
    (lib/vox_store/database.cpp) is violated. */
module RelayModel {
  import opened Common
  import opened Delivery
  import Strings

  datatype Kind = Dm | Group | Channel
  datatype Role = Owner | Admin | Member

  datatype Dev = Dev(user: UserId, device: DeviceId)
  datatype Seat = Seat(conv: ConversationId, user: UserId)
  datatype RowKey = RowKey(envelope: EnvelopeId, user: UserId, device: DeviceId)

  datatype Device = Device(revoked: bool)
  datatype Conversation = Conversation(kind: Kind, createdBy: UserId, policy: string, version: nat)
  /** A conversation_members row; `active` says that removed_at is null. */
  datatype Membership = Membership(role: Role, active: bool)
  datatype Envelope = Envelope(conv: ConversationId, sender: Dev, ciphertext: string, timestamp: Timestamp)
  datatype DeliveryRow = DeliveryRow(queuedAt: Timestamp, acked: bool)

  datatype Tables = Tables(
    users: set<UserId>,
    devices: map<Dev, Device>,
    convs: map<ConversationId, Conversation>,
    members: map<Seat, Membership>,
    subs: map<Seat, bool>,  // true while unsubscribed_at is null
    envelopes: map<EnvelopeId, Envelope>,
    delivery: map<RowKey, DeliveryRow>)

  datatype State = State(t: Tables, queues: Queues)

  datatype Config = Config(maxQueue: nat, maxGroup: nat, maxChannel: nat)

  function Key(x: Dev): string { DeviceScopeKey(x.user, x.device) }

  // ---- Repository calls -----------------------------------------------------------------------

  function Bump(t: Tables, c: ConversationId): Tables {
    if c in t.convs then t.(convs := t.convs[c := t.convs[c].(version := t.convs[c].version + 1)]) else t
  }

  function CreateConversation(t: Tables, c: ConversationId, row: Conversation): Result<Tables> {
    if c in t.convs || row.createdBy !in t.users then Err(AlreadyExists)
    else Ok(t.(convs := t.convs[c := row]))
  }

  function AddMemberRow(t: Tables, c: ConversationId, u: UserId, role: Role): Result<Tables> {
    if c !in t.convs || u !in t.users then Err(Internal)
    else Ok(Bump(t.(members := t.members[Seat(c, u) := Membership(role, true)]), c))
  }

  predicate IsMember(t: Tables, c: ConversationId, u: UserId) {
    Seat(c, u) in t.members && t.members[Seat(c, u)].active
  }

  predicate IsSubscriber(t: Tables, c: ConversationId, u: UserId) {
    Seat(c, u) in t.subs && t.subs[Seat(c, u)]
  }

  function RemoveMemberRow(t: Tables, c: ConversationId, u: UserId): Tables {
    if IsMember(t, c, u) then
      Bump(t.(members := t.members[Seat(c, u) := t.members[Seat(c, u)].(active := false)]), c)
    else t
  }

  function SubscribeRow(t: Tables, c: ConversationId, u: UserId): Result<Tables> {
    if c !in t.convs || u !in t.users then Err(Internal)
    else Ok(Bump(t.(subs := t.subs[Seat(c, u) := true]), c))
  }

  function UnsubscribeRow(t: Tables, c: ConversationId, u: UserId): Tables {
    if IsSubscriber(t, c, u) then Bump(t.(subs := t.subs[Seat(c, u) := false]), c) else t
  }

  /** IsUserInConversation: subscription for a channel, membership otherwise. */
  predicate InConversation(t: Tables, c: ConversationId, u: UserId) {
    c in t.convs && if t.convs[c].kind.Channel? then IsSubscriber(t, c, u) else IsMember(t, c, u)
  }

  predicate CanManage(t: Tables, c: ConversationId, u: UserId) {
    IsMember(t, c, u) && (t.members[Seat(c, u)].role.Owner? || t.members[Seat(c, u)].role.Admin?)
  }

  function Members(t: Tables, c: ConversationId): set<UserId> {
    set x | x in t.members && x.conv == c && t.members[x].active :: x.user
  }

  function Subscribers(t: Tables, c: ConversationId): set<UserId> {
    set x | x in t.subs && x.conv == c && t.subs[x] :: x.user
  }

  function StoreEnvelope(t: Tables, id: EnvelopeId, e: Envelope): Result<Tables> {
    if id in t.envelopes || e.conv !in t.convs || e.sender !in t.devices then Err(Duplicate)
    else Ok(t.(envelopes := t.envelopes[id := e]))
  }

  /** AddDeliveryState; a violated constraint leaves the table as it is. */
  function AddDelivery(t: Tables, k: RowKey, now: Timestamp): Tables {
    if k in t.delivery || k.envelope !in t.envelopes || Dev(k.user, k.device) !in t.devices then t
    else t.(delivery := t.delivery[k := DeliveryRow(now, false)])
  }

  /** DeletePendingDeliveryForUserInConversation. */
  function DropDelivery(t: Tables, c: ConversationId, u: UserId): Tables {
    t.(delivery := map k | k in t.delivery && !(k.user == u && k.envelope in t.envelopes
                                                && t.envelopes[k.envelope].conv == c) :: t.delivery[k])
  }

  // ---- SendEnvelope ---------------------------------------------------------------------------

  datatype SendRequest = SendRequest(sender: Dev, conv: ConversationId, ciphertext: string, envelopeId: EnvelopeId)
  datatype SendResponse = SendResponse(envelopeId: EnvelopeId, timestamp: Timestamp, deliveredTo: nat)

  const EVERYONE: string := "\"channel_post_policy\":\"everyone\""

  predicate Contains(s: string, sub: string) { exists i: nat :: i <= |s| && OccursAt(s, sub, i) }

  predicate OccursAt(s: string, sub: string, i: nat) { i + |sub| <= |s| && s[i..i + |sub|] == sub }

  /** Why a request is refused before anything is stored, or None. */
  function Refusal(t: Tables, r: SendRequest): Option<ErrorCode> {
    if r.ciphertext == "" then Some(InvalidArgument)
    else if r.sender !in t.devices then Some(Unauthorized)
    else if r.conv !in t.convs then Some(NotFound)
    else if !InConversation(t, r.conv, r.sender.user) then Some(Forbidden)
    else if t.convs[r.conv].kind.Channel? && !Contains(t.convs[r.conv].policy, EVERYONE)
            && !CanManage(t, r.conv, r.sender.user) then Some(Forbidden)
    else None
  }

  /** The devices a message fans out to. */
  function Targets(t: Tables, c: ConversationId, sender: Dev): set<Dev> {
    set x | x in t.devices && !t.devices[x].revoked && InConversation(t, c, x.user) && x != sender
  }

  function Keys(xs: set<Dev>): set<string> { set x | x in xs :: Key(x) }

  /** Every queue in `keys` that has room gains `e`. */
  function FanQueues(qs: Queues, max: nat, e: Queued, keys: set<string>): Queues {
    map k | k in qs.Keys + keys ::
      if k in keys && |Pending(qs, k)| < max then Pending(qs, k) + [e] else Pending(qs, k)
  }

  function Full(qs: Queues, max: nat, xs: set<Dev>): set<Dev> { set x | x in xs && |Pending(qs, Key(x))| >= max }

  function Rows(id: EnvelopeId, xs: set<Dev>): set<RowKey> { set x | x in xs :: RowKey(id, x.user, x.device) }

  function NewRows(rows: set<RowKey>, now: Timestamp): map<RowKey, DeliveryRow> {
    map k | k in rows :: DeliveryRow(now, false)
  }

  /** The state after the devices `xs` have been served: a queue entry if there is room, else a row. */
  function FanOut(s: State, max: nat, e: Queued, xs: set<Dev>): State {
    var rows := Rows(e.envelopeId, Full(s.queues, max, xs));
    State(s.t.(delivery := s.t.delivery + NewRows(rows, e.timestamp)),
          FanQueues(s.queues, max, e, Keys(xs)))
  }

  /** SendEnvelope at time `now`, with `uuid` the id generated when the request brings none. */
  function Send(s: State, cfg: Config, r: SendRequest, now: Timestamp, uuid: EnvelopeId): (State, Result<SendResponse>) {
    var refusal := Refusal(s.t, r);
    if refusal.Some? then (s, Err(refusal.value))
    else
      var id := if r.envelopeId == "" then uuid else r.envelopeId;
      if id in s.t.envelopes then (s, Err(Duplicate))
      else
        var stored := s.t.(envelopes := s.t.envelopes[id := Envelope(r.conv, r.sender, r.ciphertext, now)]);
        var e := Queued(id, r.conv, r.sender.user, r.sender.device, r.ciphertext, now);
        var xs := Targets(s.t, r.conv, r.sender);
        (FanOut(State(stored, s.queues), cfg.maxQueue, e, xs),
         Ok(SendResponse(id, now, |xs - Full(s.queues, cfg.maxQueue, xs)|)))
  }

  // ---- DeliveryManager ------------------------------------------------------------------------

  /** The rows SwitchToOffline writes, entry by entry; AddDeliveryState refuses a repeated key. */
  function Persist(t: Tables, q: seq<Queued>, x: Dev, now: Timestamp): Tables {
    if q == [] then t
    else AddDelivery(Persist(t, q[..|q| - 1], x, now), RowKey(q[|q| - 1].envelopeId, x.user, x.device), now)
  }

  function SwitchToOffline(s: State, x: Dev, now: Timestamp): State {
    State(Persist(s.t, Pending(s.queues, Key(x)), x, now), Clear(s.queues, Key(x)))
  }

  function Acknowledge(s: State, x: Dev, id: EnvelopeId): (State, Result<Unit>) {
    var k := RowKey(id, x.user, x.device);
    if k !in s.t.delivery then (s, Err(NotFound))
    else (s.(t := s.t.(delivery := s.t.delivery[k := s.t.delivery[k].(acked := true)])), Ok(Unit))
  }

  // ---- ConversationService --------------------------------------------------------------------

  /** Every queue in `keys` loses the entries of conversation `c`. */
  function PurgeQueues(qs: Queues, c: ConversationId, keys: set<string>): Queues {
    map k | k in qs :: if k in keys then Without(qs[k], c) else qs[k]
  }

  function UserKeys(t: Tables, u: UserId): set<string> { set x | x in t.devices && x.user == u :: Key(x) }

  /** PurgeMemberDelivery: the rows, then the queue of each of the user's devices, revoked or not. */
  function PurgeMember(s: State, c: ConversationId, u: UserId): State {
    State(DropDelivery(s.t, c, u), PurgeQueues(s.queues, c, UserKeys(s.t, u)))
  }

  /** Adds members in order until one is refused; the flag says that none was. */
  function AddAll(t: Tables, c: ConversationId, ids: seq<UserId>, owner: UserId, other: Role): (Tables, bool) {
    if ids == [] then (t, true)
    else
      var before := AddAll(t, c, ids[..|ids| - 1], owner, other);
      var u := ids[|ids| - 1];
      if !before.1 then before
      else
        var r := AddMemberRow(before.0, c, u, if u == owner then Owner else other);
        if r.Ok? then (r.value, true) else (before.0, false)
  }

  /** Subscribes users in order, passing over those in `skip`, until one is refused. */
  function SubscribeAll(t: Tables, c: ConversationId, ids: seq<UserId>, skip: set<UserId>): (Tables, bool) {
    if ids == [] then (t, true)
    else
      var before := SubscribeAll(t, c, ids[..|ids| - 1], skip);
      var u := ids[|ids| - 1];
      if !before.1 || u in skip then before
      else
        var r := SubscribeRow(before.0, c, u);
        if r.Ok? then (r.value, true) else (before.0, false)
  }

  /** CreateChannel adds and subscribes each administrator before the next. */
  function AddAdmins(t: Tables, c: ConversationId, ids: seq<UserId>, owner: UserId): (Tables, bool) {
    if ids == [] then (t, true)
    else
      var before := AddAdmins(t, c, ids[..|ids| - 1], owner);
      var u := ids[|ids| - 1];
      if !before.1 then before
      else
        var r := AddMemberRow(before.0, c, u, if u == owner then Owner else Admin);
        if r.Err? then (before.0, false)
        else
          var r2 := SubscribeRow(r.value, c, u);
          if r2.Ok? then (r2.value, true) else (r.value, false)
  }

  function Created(s: State, made: (Tables, bool), c: ConversationId): (State, Result<ConversationId>) {
    (s.(t := made.0), if made.1 then Ok(c) else Err(Internal))
  }

  function CreateDm(s: State, a: UserId, b: UserId, creator: UserId, c: ConversationId)
    : (State, Result<ConversationId>)
  {
    if creator != a && creator != b then (s, Err(Forbidden))
    else
      var r := CreateConversation(s.t, c, Conversation(Dm, creator, "", 0));
      if r.Err? then (s, Err(r.code))
      else
        var other := if creator == a then b else a;
        Created(s, AddAll(r.value, c, if a == b then [a] else [creator, other], creator, Member), c)
  }

  function CreateGroup(s: State, cfg: Config, creator: UserId, members: seq<UserId>, c: ConversationId)
    : (State, Result<ConversationId>)
  {
    var ids := Strings.SortUnique(members);
    if |ids| < 2 then (s, Err(InvalidArgument))
    else if creator !in ids then (s, Err(InvalidArgument))
    else if |ids| > cfg.maxGroup then (s, Err(QuotaExceeded))
    else
      var r := CreateConversation(s.t, c, Conversation(Group, creator, "", 0));
      if r.Err? then (s, Err(r.code)) else Created(s, AddAll(r.value, c, ids, creator, Member), c)
  }

  const ADMINS_ONLY: string := "{\"title\":\"\",\"channel_post_policy\":\"admins_only\"}"

  function Elements(s: seq<UserId>): set<UserId> { set x | x in s }

  predicate Distinct(s: seq<UserId>) { forall i, j :: 0 <= i < j < |s| ==> s[i] != s[j] }

  function CreateChannel(s: State, cfg: Config, creator: UserId, admins: seq<UserId>, subs: seq<UserId>,
                         c: ConversationId)
    : (State, Result<ConversationId>)
  {
    if creator !in admins || !Distinct(admins) then (s, Err(InvalidArgument))
    else if |Elements(admins) + Elements(subs)| > cfg.maxChannel then (s, Err(QuotaExceeded))
    else
      var r := CreateConversation(s.t, c, Conversation(Channel, creator, ADMINS_ONLY, 0));
      if r.Err? then (s, Err(r.code))
      else
        var made := AddAdmins(r.value, c, admins, creator);
        Created(s, if made.1 then SubscribeAll(made.0, c, subs, Elements(admins)) else made, c)
  }

  function AddMember(s: State, cfg: Config, c: ConversationId, actor: UserId, u: UserId, role: Role)
    : (State, Result<Unit>)
  {
    if c !in s.t.convs then (s, Err(NotFound))
    else if !s.t.convs[c].kind.Group? then (s, Err(InvalidArgument))
    else if !CanManage(s.t, c, actor) then (s, Err(Forbidden))
    else if |Members(s.t, c)| >= cfg.maxGroup then (s, Err(QuotaExceeded))
    else
      var r := AddMemberRow(s.t, c, u, role);
      if r.Ok? then (s.(t := r.value), Ok(Unit)) else (s, Err(r.code))
  }

  function RemoveMember(s: State, c: ConversationId, actor: UserId, u: UserId): (State, Result<Unit>) {
    if c !in s.t.convs then (s, Err(NotFound))
    else if !s.t.convs[c].kind.Group? then (s, Err(InvalidArgument))
    else if !CanManage(s.t, c, actor) then (s, Err(Forbidden))
    else (PurgeMember(s.(t := RemoveMemberRow(s.t, c, u)), c, u), Ok(Unit))
  }

  function SubscribeChannel(s: State, cfg: Config, c: ConversationId, u: UserId): (State, Result<Unit>) {
    if c !in s.t.convs then (s, Err(NotFound))
    else if !s.t.convs[c].kind.Channel? then (s, Err(InvalidArgument))
    else if u !in Subscribers(s.t, c) && |Subscribers(s.t, c)| >= cfg.maxChannel then (s, Err(QuotaExceeded))
    else
      var r := SubscribeRow(s.t, c, u);
      if r.Ok? then (s.(t := r.value), Ok(Unit)) else (s, Err(r.code))
  }

  function UnsubscribeChannel(s: State, c: ConversationId, u: UserId): (State, Result<Unit>) {
    if c !in s.t.convs then (s, Err(NotFound))
    else if !s.t.convs[c].kind.Channel? then (s, Err(InvalidArgument))
    else if CanManage(s.t, c, u) then (s, Err(Forbidden))
    else (PurgeMember(s.(t := UnsubscribeRow(s.t, c, u)), c, u), Ok(Unit))
  }

  // ---- Accounts -------------------------------------------------------------------------------

  function RegisterUser(s: State, u: UserId): State { s.(t := s.t.(users := s.t.users + {u})) }

  function RegisterDevice(s: State, x: Dev): State {
    if x in s.t.devices || x.user !in s.t.users then s
    else s.(t := s.t.(devices := s.t.devices[x := Device(false)]))
  }

  function RevokeDevice(s: State, x: Dev): State {
    if x !in s.t.devices then s else s.(t := s.t.(devices := s.t.devices[x := Device(true)]))
  }

  // ---- Runs -----------------------------------------------------------------------------------

  datatype Op =
    | SendOp(request: SendRequest, now: Timestamp, uuid: EnvelopeId)
    | DequeueOp(dev: Dev, n: nat)
    | OfflineOp(dev: Dev, now: Timestamp)
    | AckOp(dev: Dev, id: EnvelopeId)
    | DmOp(a: UserId, b: UserId, creator: UserId, c: ConversationId)
    | GroupOp(creator: UserId, members: seq<UserId>, c: ConversationId)
    | ChannelOp(creator: UserId, admins: seq<UserId>, subs: seq<UserId>, c: ConversationId)
    | AddOp(c: ConversationId, actor: UserId, u: UserId, role: Role)
    | RemoveOp(c: ConversationId, actor: UserId, u: UserId)
    | SubscribeOp(c: ConversationId, u: UserId)
    | UnsubscribeOp(c: ConversationId, u: UserId)
    | UserOp(u: UserId)
    | DeviceOp(dev: Dev)
    | RevokeOp(dev: Dev)

  /** User ids are UUIDs generated by the server: hexadecimal digits and dashes, never the separator. */
  predicate Enabled(op: Op) { op.UserOp? ==> NoSeparator(op.u) }

  function Step(s: State, cfg: Config, op: Op): State {
    match op
    case SendOp(r, now, uuid) => Send(s, cfg, r, now, uuid).0
    case DequeueOp(x, n) => s.(queues := Dequeue(s.queues, Key(x), n))
    case OfflineOp(x, now) => SwitchToOffline(s, x, now)
    case AckOp(x, id) => Acknowledge(s, x, id).0
    case DmOp(a, b, creator, c) => CreateDm(s, a, b, creator, c).0
    case GroupOp(creator, members, c) => CreateGroup(s, cfg, creator, members, c).0
    case ChannelOp(creator, admins, subs, c) => CreateChannel(s, cfg, creator, admins, subs, c).0
    case AddOp(c, actor, u, role) => AddMember(s, cfg, c, actor, u, role).0
    case RemoveOp(c, actor, u) => RemoveMember(s, c, actor, u).0
    case SubscribeOp(c, u) => SubscribeChannel(s, cfg, c, u).0
    case UnsubscribeOp(c, u) => UnsubscribeChannel(s, c, u).0
    case UserOp(u) => RegisterUser(s, u)
    case DeviceOp(x) => RegisterDevice(s, x)
    case RevokeOp(x) => RevokeDevice(s, x)
  }

  const INITIAL: State := State(Tables({}, map[], map[], map[], map[], map[], map[]), map[])

  function Run(cfg: Config, ops: seq<Op>): State {
    if ops == [] then INITIAL else Step(Run(cfg, ops[..|ops| - 1]), cfg, ops[|ops| - 1])
  }

  ghost predicate Legal(ops: seq<Op>) { forall i :: 0 <= i < |ops| ==> Enabled(ops[i]) }
}
