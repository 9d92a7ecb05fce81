/** src/middleware/validateInstruction.js: the body rules of instruction
    create and update. `trim()` sanitises the description before it is
    measured and the trimmed value is what the handler passes on. */
module ValidateInstruction {
  import opened Common
  import opened Text
  import opened Validation
  import opened InstructionRepo
  import opened InstructionService

  /** The messages of the validators below. */
  datatype Message = StepMessage | DescriptionRequired | DescriptionEmpty | DescriptionLength
  {
    /** The wording the response carries. */
    function Wording(): string {
      match this
      case StepMessage => "Step number must be a positive integer"
      case DescriptionRequired => "Description is required"
      case DescriptionEmpty => "Description cannot be empty"
      case DescriptionLength => "Description must be between 5 and 1000 characters"
    }
  }

  datatype InstructionBody = InstructionBody(stepNumber: Option<IntField>, description: Option<string>)

  /** The rule for creation: a step number that is an integer of at least 1,
      and a description of 5 to 1000 characters once trimmed. */
  predicate AcceptableInstruction(b: InstructionBody) {
    && b.stepNumber.Some? && b.stepNumber.value.Int? && b.stepNumber.value.value >= 1
    && b.description.Some? && 5 <= |Trim(b.description.value)| <= 1000
  }

  /** The rule for update: each field may be absent; a given one obeys the
      creation rule. */
  predicate AcceptableInstructionUpdate(b: InstructionBody) {
    && (b.stepNumber.Some? ==> b.stepNumber.value.Int? && b.stepNumber.value.value >= 1)
    && (b.description.Some? ==> 5 <= |Trim(b.description.value)| <= 1000)
  }

  /** The `trim().notEmpty().isLength({min: 5, max: 1000})` chain. */
  function DescriptionErrors(d: string, emptyMessage: Message): (errs: seq<Message>)
    ensures |errs| <= 2
    ensures errs == [] <==> 5 <= |Trim(d)| <= 1000
    ensures Trim(d) == "" ==> errs == [emptyMessage, DescriptionLength]
  {
    var t := Trim(d);
    ChainOfTwo(t != "", 5 <= |t| <= 1000, emptyMessage, DescriptionLength);
    Check(t != "", emptyMessage) + Check(5 <= |t| <= 1000, DescriptionLength)
  }

  /** `validateInstruction`: the messages of the failing validators, in order. */
  function InstructionErrors(b: InstructionBody): (errs: seq<Message>)
    ensures errs == [] <==> AcceptableInstruction(b)
    ensures !IsIntAtLeast(b.stepNumber, 1) ==> errs[0] == StepMessage
    ensures b.description.None? ==> |errs| >= 2 && errs[|errs| - 2..] == [DescriptionRequired, DescriptionLength]
  {
    var description := DescriptionErrors(OrEmpty(b.description), DescriptionRequired);
    var errs := Check(IsIntAtLeast(b.stepNumber, 1), StepMessage) + description;
    assert errs[|errs| - |description|..] == description;
    errs
  }

  /** `validateInstructionUpdate`. */
  function InstructionUpdateErrors(b: InstructionBody): (errs: seq<Message>)
    ensures errs == [] <==> AcceptableInstructionUpdate(b)
    ensures b.description.Some? && Trim(b.description.value) == "" ==> |errs| >= 2 && errs[|errs| - 2..] == [DescriptionEmpty, DescriptionLength]
  {
    (if b.stepNumber.None? then [] else Check(IsIntAtLeast(b.stepNumber, 1), StepMessage))
    + (if b.description.None? then [] else DescriptionErrors(b.description.value, DescriptionEmpty))
  }

  /** The body as the handler receives it: the description trimmed in place. */
  function Sanitize(b: InstructionBody): (s: InstructionBody)
    ensures s.stepNumber == b.stepNumber
    ensures s.description.Some? <==> b.description.Some?
    ensures s.description.Some? ==> s.description.value == Trim(b.description.value)
  {
    InstructionBody(b.stepNumber, if b.description.Some? then Some(Trim(b.description.value)) else None)
  }

  /** The data a validated creation body hands to `createInstruction`. */
  function InstructionDataOf(b: InstructionBody): (d: InstructionData)
    requires AcceptableInstruction(b)
    ensures d.stepNumber == b.stepNumber.value.value >= 1
    ensures d.description == Trim(b.description.value) && 5 <= |d.description| <= 1000
  {
    InstructionData(b.stepNumber.value.value, Sanitize(b).description.value)
  }

  /** The update a validated body hands to `updateInstructionById`; a given
      step number meets that operation's precondition. */
  function InstructionUpdateOf(b: InstructionBody): (u: InstructionUpdate)
    requires AcceptableInstructionUpdate(b)
    ensures u.stepNumber.Some? <==> b.stepNumber.Some?
    ensures u.stepNumber.Some? ==> u.stepNumber.value == b.stepNumber.value.value >= 1
    ensures u.description == Sanitize(b).description
  {
    InstructionUpdate(if b.stepNumber.Some? then Some(b.stepNumber.value.value) else None, Sanitize(b).description)
  }

  /** Every creation body the validator accepts is an acceptable update too. */
  lemma CreateRulesImplyUpdateRules(b: InstructionBody)
    ensures InstructionErrors(b) == [] ==> InstructionUpdateErrors(b) == []
  {
  }

  /** An update body naming no field passes. */
  lemma EmptyUpdatePasses()
    ensures InstructionUpdateErrors(InstructionBody(None, None)) == []
  {
  }

  /** Sanitising is stable: trimming an already sanitised body changes nothing. */
  lemma {:induction false} SanitizeIdempotent(b: InstructionBody)
    ensures Sanitize(Sanitize(b)) == Sanitize(b)
  {
    if b.description.Some? {
      TrimIdempotent(b.description.value);
    }
  }

  /** A body the validator accepts is still accepted once sanitised, so the
      handler passes on a body that obeys the rule as it stands. */
  lemma {:induction false} SanitizedBodyRevalidates(b: InstructionBody)
    ensures AcceptableInstruction(b) ==> AcceptableInstruction(Sanitize(b))
    ensures AcceptableInstructionUpdate(b) ==> AcceptableInstructionUpdate(Sanitize(b))
  {
    if b.description.Some? {
      TrimIdempotent(b.description.value);
    }
  }
}
