/** The engine's own small vocabularies that several monitors read. */
module EngineTypes {
  datatype DiagnosticsLifecycle = Idle | Initializing | Recording | Paused | Stopping | Completed | Failed

  datatype HubFrameKind = NoFrame | Held | Live
}
