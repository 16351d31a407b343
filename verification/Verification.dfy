/**
 The verification ledger in a blueprint's markdown (src/blueprint/verification.ts): evidence is
 spliced into one task's section and read back from there.
 */
module Verification {
  import opened Text
  import opened Markdown
  import opened Evidence
  import opened Splicing

  datatype Failure =
    | InvalidEvidence
    | FailingItem
    | NothingPassing
    | TaskNotFound

  datatype VerificationResult = Success(markdown: string) | Failed(failure: Failure)

  function SerializeBlock(es: seq<Item>): string
  {
    BlockText(CanonicalList(es))
  }

  // ---------------------------------------------------------------------
  // Reading a block
  // ---------------------------------------------------------------------

  function ParseBlock(block: string, isDate: string -> bool): Option<seq<Item>>
  {
    match FirstJson(block)
    case None => None
    case Some(json) => ReadList(json, isDate)
  }

  function ReadTaskVerification(markdown: string, id: string, isDate: string -> bool): Option<seq<Item>>
  {
    match ReadTaskSection(markdown, id)
    case None => None
    case Some(section) => ParseBlock(section, isDate)
  }

  // ---------------------------------------------------------------------
  // Applying a verification
  // ---------------------------------------------------------------------

  predicate Passing(es: seq<Item>)
  {
    exists e | e in es :: e.result.Pass?
  }

  function Refusal(es: seq<Item>, isDate: string -> bool): Option<Failure>
  {
    if !ValidList(es, isDate) then Some(InvalidEvidence)
    else if exists e | e in es :: e.result.Fail? then Some(FailingItem)
    else if !Passing(es) then Some(NothingPassing)
    else None
  }

  function ApplyVerification(markdown: string, id: string, es: seq<Item>, isDate: string -> bool): VerificationResult
  {
    match Refusal(es, isDate)
    case Some(f) => Failed(f)
    case None =>
      if FindHeader(markdown, id) == -1 then Failed(TaskNotFound)
      else
        var block := SerializeBlock(es);
        var withoutExistingBlock := MapTaskSection(markdown, id, WithoutBlocks);
        var withStatus := CompleteTask(withoutExistingBlock, id);
        Success(MapTaskSection(withStatus, id, Inserter(block)))
  }

  /** assertTaskHasCanonicalPassingEvidence does not throw. */
  predicate HasPassingEvidence(markdown: string, id: string, isDate: string -> bool)
  {
    match ReadTaskVerification(markdown, id, isDate)
    case None => false
    case Some(es) => Passing(es)
  }

  /** assertAllTasksHaveCanonicalPassingEvidence does not throw. */
  predicate AllHavePassingEvidence(markdown: string, ids: seq<string>, isDate: string -> bool)
  {
    forall id | id in ids :: HasPassingEvidence(markdown, id, isDate)
  }
}
