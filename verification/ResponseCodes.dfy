/** Response codes as the plain integers the client compares. */
module ResponseCodes {
  const SUCCESS := 0
  const FAILURE := -1
  const ENABLED := 1
  const SUCCES_NEXT_PAGE := 0x02
  const TIMEOUT_RECEIVED := 0x06
  const COMMAND_IN_PROGRESS := 0x07
  const FAILED_PMESH_ERROR := 12
  const DLMS_ERROR := 13
  const PMESH_ERROR := 0x0F
  const DLMS_CONNECTION_FAILED := 0x25
  const DLMS_CHECKSUM_ERROR := 0x29
  const DLMS_SUCCESS := 0x37
  const INVALID_SRC_ADDR := 0x49
  const NEXT_PAGE_PRESENT := 0x52
  const PUSH_DATA_RECEIVED := 0x54
  const POLL_TIMEOUT := 0xFF

  /** Codes that end a transmission of the pull. */
  predicate IsFinal(code: int) {
    code == SUCCESS || code == ENABLED || code == NEXT_PAGE_PRESENT ||
    code == DLMS_CONNECTION_FAILED || code == DLMS_ERROR || code == DLMS_SUCCESS
  }

  /** Codes after which the pull waits again without spending a retry. */
  predicate IsFree(code: int) {
    code == COMMAND_IN_PROGRESS || code == INVALID_SRC_ADDR || code == PUSH_DATA_RECEIVED
  }
}
