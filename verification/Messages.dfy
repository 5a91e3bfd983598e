/** The message record shared by all gateway components (gw/msg-decl.h, gw/msg.h). */
module Messages {
  import opened Octets

  type Uuid = u: seq<Octet> | |u| == 16 witness [0, 0, 0, 0, 0, 0, 0, 0, 0, 0, 0, 0, 0, 0, 0, 0]

  const MSG_PARAM_UNDEFINED := -1

  const DC_7BIT := 0
  const DC_8BIT := 1
  const DC_UCS2 := 2

  /** One constructor per message kind, fields in declaration order. `splitParts` is
      the in-memory pointer to the split bookkeeping, modelled as an opaque handle. */
  datatype Msg =
    | Heartbeat(load: int)
    | Admin(command: int, boxcId: Option<Octstr>, httpPort: int)
    | Sms(sender: Option<Octstr>, receiver: Option<Octstr>, udhdata: Option<Octstr>, msgdata: Option<Octstr>,
          time: int, smscId: Option<Octstr>, smscNumber: Option<Octstr>, foreignId: Option<Octstr>,
          service: Option<Octstr>, account: Option<Octstr>, id: Uuid, smsType: int, mclass: int, mwi: int,
          coding: int, compress: int, validity: int, deferred: int, dlrMask: int, dlrUrl: Option<Octstr>,
          pid: int, altDcs: int, rpi: int, charset: Option<Octstr>, boxcId: Option<Octstr>,
          binfo: Option<Octstr>, msgLeft: int, splitParts: Option<nat>, priority: int, resendTry: int,
          resendTime: int, metaData: Option<Octstr>)
    | Ack(nack: int, ackTime: int, ackId: Uuid)
    | WdpDatagram(sourceAddress: Option<Octstr>, sourcePort: int, destinationAddress: Option<Octstr>,
                  destinationPort: int, userData: Option<Octstr>)

  const ZERO_ID: Uuid := [0, 0, 0, 0, 0, 0, 0, 0, 0, 0, 0, 0, 0, 0, 0, 0]

  /** A text message with every field undefined. */
  const BLANK_SMS: Msg := Sms(None, None, None, None, -1, None, None, None, None, None, ZERO_ID, -1, -1, -1, -1, -1, -1,
                              -1, -1, None, -1, -1, -1, None, None, None, -1, None, -1, -1, -1, None)

  type SmsMsg = m: Msg | m.Sms? witness BLANK_SMS
}
