/** The service-data keys of the thread provisioning command (the ATTR_* constants of the integration). */
module Const {

  /** One key of the thread provisioning payload, in the order the command's schema declares them. */
  datatype Attr =
    | Hkid
    | ThreadNetworkName
    | ThreadChannel
    | ThreadPanId
    | ThreadExtendedPanId
    | ThreadNetworkKey
    | ThreadUnknownFlag

  /** Every key of the payload; the schema marks each of them as required. */
  const ALL_ATTRS: set<Attr> := {
    Hkid, ThreadNetworkName, ThreadChannel, ThreadPanId,
    ThreadExtendedPanId, ThreadNetworkKey, ThreadUnknownFlag
  }
}
