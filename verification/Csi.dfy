/** The parts of the CSI requests and responses that the driver reads and writes. */
module Csi {
  import opened CloudModel

  /** Crashed: the handler dereferences a nil pointer. */
  datatype Code = InvalidArgument | OutOfRange | Internal | NotFound | FailedPrecondition | AlreadyExists
                | Crashed | Raw(error: Error)

  datatype AccessMode = SingleNodeWriter | OtherMode

  datatype AccessType = Block | Mount(fsType: string, flags: seq<string>) | Unset

  datatype Capability = Capability(mode: AccessMode, access: AccessType)

  const UNIT_KEY: string := "diskUnitNum"
  const SIZE_KEY: string := "diskSizeB"
  const VDC_PARAM: string := "vcd"
  const PROFILE_PARAM: string := "storageProfile"
}
