/** Limits shared by the handlers and the client (`src/lib/constants.ts`). */
module Constants {

  /** Journal creations allowed per user and calendar day. */
  const DAILY_LIMIT: int := 3

  /** Shortest and longest accepted recording, in seconds. */
  const MIN_RECORDING_DURATION: int := 3
  const MAX_RECORDING_DURATION: int := 300
}
