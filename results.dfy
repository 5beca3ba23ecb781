/** The result record every validator returns (`ValidationResult` and the
    `BaseValidator` helpers in src/validators/base.py). Validity only ever
    moves from true to false: an error forces it false, a warning leaves it
    alone. */
module Results {
  import opened Wrappers
  import opened JsonTree

  /** One recorded error or warning: `{'message': ..., 'details': ...}`. */
  datatype Entry = Entry(message: string, details: Members)

  /** The plain dictionary `to_dict` produces. */
  datatype ResultDict = ResultDict(
    valid: bool,
    message: string,
    details: Members,
    errors: seq<Entry>,
    warnings: seq<Entry>)

  /** `details or {}`: an absent (or empty) details dict becomes `{}`. */
  function OrEmpty(details: Option<Members>): (d: Members)
    ensures details.None? ==> d == []
    ensures details.Some? ==> d == details.value
  {
    details.GetOr([])
  }

  class ValidationResult {
    var valid: bool
    var message: string
    var details: Members
    var errors: seq<Entry>
    var warnings: seq<Entry>

    /** Recorded errors always mean an invalid result. */
    ghost predicate Valid()
      reads this
    {
      errors != [] ==> !valid
    }

    constructor(valid: bool, message: string := "", details: Option<Members> := None)
      ensures Valid()
      ensures this.valid == valid && this.message == message && this.details == OrEmpty(details)
      ensures errors == [] && warnings == []
    {
      this.valid := valid;
      this.message := message;
      this.details := OrEmpty(details);
      errors := [];
      warnings := [];
    }

    /** `add_error`: appends exactly one entry and forces `valid` false. */
    method AddError(error: string, details: Option<Members> := None)
      modifies this`valid, this`errors
      ensures Valid() && !valid && HasErrors()
      ensures errors == old(errors) + [Entry(error, OrEmpty(details))]
    {
      errors := errors + [Entry(error, OrEmpty(details))];
      valid := false;
    }

    /** `add_warning`: appends exactly one entry; validity and errors are untouched. */
    method AddWarning(warning: string, details: Option<Members> := None)
      modifies this`warnings
      ensures warnings == old(warnings) + [Entry(warning, OrEmpty(details))]
      ensures HasWarnings()
      ensures old(Valid()) ==> Valid()
    {
      warnings := warnings + [Entry(warning, OrEmpty(details))];
    }

    /** `has_errors`: under the invariant this is just `not valid`. */
    function HasErrors(): (r: bool)
      reads this
      ensures Valid() ==> (r <==> !valid)
      ensures errors != [] ==> r
    {
      |errors| > 0 || !valid
    }

    /** `has_warnings` */
    function HasWarnings(): (r: bool)
      reads this
      ensures r <==> warnings != []
    {
      |warnings| > 0
    }

    /** `to_dict`: the five fields, unchanged. */
    function ToDict(): (d: ResultDict)
      reads this
      ensures d.valid == valid && d.message == message && d.details == details
      ensures d.errors == errors && d.warnings == warnings
    {
      ResultDict(valid, message, details, errors, warnings)
    }
  }

  /** `BaseValidator._create_error_result`: invalid, but with no error entries. */
  method CreateErrorResult(message: string, details: Option<Members> := None) returns (r: ValidationResult)
    ensures fresh(r) && r.Valid()
    ensures r.ToDict() == ResultDict(false, message, OrEmpty(details), [], [])
  {
    r := new ValidationResult(false, message, details);
  }

  /** `BaseValidator._create_success_result` */
  method CreateSuccessResult(message: string := "Validation passed") returns (r: ValidationResult)
    ensures fresh(r) && r.Valid()
    ensures r.ToDict() == ResultDict(true, message, [], [], [])
  {
    r := new ValidationResult(true, message);
  }
}
