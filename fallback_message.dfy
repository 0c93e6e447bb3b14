/**
 * The canned analysis `analyzeObjective` returns when the edge function
 * fails: a fixed head, the objective, and a fixed tail. The text is kept in
 * short pieces; the verifier reads the characters of a string literal only
 * when it is short, so each piece gets its own lemma, and the lemmas about
 * the head and the tail put them together.
 */
module FallbackMessage {

  const FaultBanner := "## [ SYSTEM FAULT DETECTED ]\n\n"
  const ProtocolHeading := "### Emergency Protocol: "
  const ProtocolMode := "**DIAGNOSTIC MODE**\n"
  const OfflineNotice := "Analysis system temporarily offline. "
  const InterventionNotice := "Manual intervention required.\n\n"
  const StatusHeading := "### Mission Status:\n"
  const ObjectiveOpening := "Your objective \""

  /** Everything before the objective; it ends with the opening quote. */
  const Head := FaultBanner + ProtocolHeading + ProtocolMode + OfflineNotice
    + InterventionNotice + StatusHeading + ObjectiveOpening

  const LoggedNotice := "\" has been logged for priority "
  const ProcessingNotice := "processing. Our strategic analysis "
  const UndergoingNotice := "AI is currently undergoing system "
  const MaintenanceNotice := "maintenance. This is not a "
  const ReflectionNotice := "reflection of your objective"
  const ViabilityNotice := "s viability, but rather a temporary "
  const ConstraintNotice := "operational constraint.\n\n"
  const DirectiveHeading := "### [ EMERGENCY DIRECTIVE ]\n"
  const RetryNotice := "Please reinitialize the protocol "
  const RetryDelayNotice := "in 60 seconds. If the issue persists, "
  const BackupNotice := "the system will automatically deploy "
  const BackupTargetNotice := "backup analysis protocols."

  /** The tail up to the apostrophe of "objective's". */
  const TailBeforeApostrophe := LoggedNotice + ProcessingNotice + UndergoingNotice
    + MaintenanceNotice + ReflectionNotice

  /** The tail after the apostrophe of "objective's". */
  const TailAfterApostrophe := ViabilityNotice + ConstraintNotice + DirectiveHeading
    + RetryNotice + RetryDelayNotice + BackupNotice + BackupTargetNotice

  /** Everything after the objective; it starts with the closing quote. */
  const Tail := TailBeforeApostrophe + "'" + TailAfterApostrophe

  predicate LacksApostrophe(s: string)
  {
    '\'' !in s
  }

  lemma FaultBannerLacksApostrophe() ensures LacksApostrophe(FaultBanner) {}
  lemma ProtocolHeadingLacksApostrophe() ensures LacksApostrophe(ProtocolHeading) {}
  lemma ProtocolModeLacksApostrophe() ensures LacksApostrophe(ProtocolMode) {}
  lemma OfflineNoticeLacksApostrophe() ensures LacksApostrophe(OfflineNotice) {}
  lemma InterventionNoticeLacksApostrophe() ensures LacksApostrophe(InterventionNotice) {}
  lemma StatusHeadingLacksApostrophe() ensures LacksApostrophe(StatusHeading) {}
  lemma ObjectiveOpeningLacksApostrophe() ensures LacksApostrophe(ObjectiveOpening) {}
  lemma LoggedNoticeLacksApostrophe() ensures LacksApostrophe(LoggedNotice) {}
  lemma ProcessingNoticeLacksApostrophe() ensures LacksApostrophe(ProcessingNotice) {}
  lemma UndergoingNoticeLacksApostrophe() ensures LacksApostrophe(UndergoingNotice) {}
  lemma MaintenanceNoticeLacksApostrophe() ensures LacksApostrophe(MaintenanceNotice) {}
  lemma ReflectionNoticeLacksApostrophe() ensures LacksApostrophe(ReflectionNotice) {}
  lemma ViabilityNoticeLacksApostrophe() ensures LacksApostrophe(ViabilityNotice) {}
  lemma ConstraintNoticeLacksApostrophe() ensures LacksApostrophe(ConstraintNotice) {}
  lemma DirectiveHeadingLacksApostrophe() ensures LacksApostrophe(DirectiveHeading) {}
  lemma RetryNoticeLacksApostrophe() ensures LacksApostrophe(RetryNotice) {}
  lemma RetryDelayNoticeLacksApostrophe() ensures LacksApostrophe(RetryDelayNotice) {}
  lemma BackupNoticeLacksApostrophe() ensures LacksApostrophe(BackupNotice) {}
  lemma BackupTargetNoticeLacksApostrophe() ensures LacksApostrophe(BackupTargetNotice) {}

  /** The head has no apostrophe and ends with the opening quote. */
  lemma HeadShape()
    ensures LacksApostrophe(Head)
    ensures |Head| > 0 && Head[|Head| - 1] == '"'
  {
    FaultBannerLacksApostrophe();
    ProtocolHeadingLacksApostrophe();
    ProtocolModeLacksApostrophe();
    OfflineNoticeLacksApostrophe();
    InterventionNoticeLacksApostrophe();
    StatusHeadingLacksApostrophe();
    ObjectiveOpeningLacksApostrophe();
  }

  /**
   * The tail starts with the closing quote, and its only apostrophe is the
   * one of "objective's", right after an `e`.
   */
  lemma TailShape()
    ensures LacksApostrophe(TailBeforeApostrophe) && LacksApostrophe(TailAfterApostrophe)
    ensures |TailBeforeApostrophe| > 0 && TailBeforeApostrophe[|TailBeforeApostrophe| - 1] == 'e'
    ensures Tail[0] == '"'
  {
    LoggedNoticeLacksApostrophe();
    ProcessingNoticeLacksApostrophe();
    UndergoingNoticeLacksApostrophe();
    MaintenanceNoticeLacksApostrophe();
    ReflectionNoticeLacksApostrophe();
    ViabilityNoticeLacksApostrophe();
    ConstraintNoticeLacksApostrophe();
    DirectiveHeadingLacksApostrophe();
    RetryNoticeLacksApostrophe();
    RetryDelayNoticeLacksApostrophe();
    BackupNoticeLacksApostrophe();
    BackupTargetNoticeLacksApostrophe();
  }
}
