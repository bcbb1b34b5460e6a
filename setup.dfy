/**
 * Session setup: the chair picks a roster size, fills in one form per
 * delegate, and starts the session once the forms pass validation; the roster
 * is then built with sequential ids and trimmed names.
 */
module Setup {
  import opened Wrappers
  import opened Types
  import opened Text
  import ArrayOps

  datatype DelegateForm = DelegateForm(delegationName: string, delegateName: string)

  datatype FormField = DelegationName | DelegateName

  /** One entry of the setup error list; positions count delegates from 1. */
  datatype SetupError =
    | InvalidDelegateCount
    | MissingDelegationName(position: nat)
    | MissingDelegateName(position: nat)
    | DuplicateDelegationNames

  const MinDelegates := 5
  const MaxDelegates := 50

  predicate CountInRange(n: int) {
    MinDelegates <= n <= MaxDelegates
  }

  /** `n` empty forms. */
  function BlankForms(n: nat): (r: seq<DelegateForm>)
    ensures |r| == n && forall i :: 0 <= i < n ==> r[i] == DelegateForm("", "")
  {
    seq(n, _ => DelegateForm("", ""))
  }

  /** The form with one field changed. */
  function SetField(form: DelegateForm, field: FormField, value: string): DelegateForm {
    match field
    case DelegationName => form.(delegationName := value)
    case DelegateName => form.(delegateName := value)
  }

  /** The name delegations are compared under: trimmed, then lower-cased. */
  function NormalizedName(name: string): string {
    ToLower(Trim(name))
  }

  function NormalizedNames(forms: seq<DelegateForm>): (r: seq<string>)
    ensures |r| == |forms| && forall i :: 0 <= i < |forms| ==> r[i] == NormalizedName(forms[i].delegationName)
  {
    seq(|forms|, i requires 0 <= i < |forms| => NormalizedName(forms[i].delegationName))
  }

  /** No two delegation names coincide once trimmed and lower-cased. */
  predicate DistinctDelegations(forms: seq<DelegateForm>) {
    forall i, j :: 0 <= i < j < |forms| ==>
      NormalizedName(forms[i].delegationName) != NormalizedName(forms[j].delegationName)
  }

  /** The errors of the form at 1-based `position`: each name that is empty once trimmed is reported. */
  function FormErrors(form: DelegateForm, position: nat): seq<SetupError> {
    (if IsBlank(form.delegationName) then [MissingDelegationName(position)] else [])
    + (if IsBlank(form.delegateName) then [MissingDelegateName(position)] else [])
  }

  /** The errors of all forms, in form order. */
  function BlankNameErrors(forms: seq<DelegateForm>): seq<SetupError>
    decreases |forms|
  {
    if forms == [] then []
    else BlankNameErrors(forms[..|forms| - 1]) + FormErrors(forms[|forms| - 1], |forms|)
  }

  /** The list `validateForms` builds: a bad roster size, every blank name, and one error when two
      delegation names coincide once trimmed and lower-cased (`new Set(names).size !== names.length`). */
  function SetupErrors(count: int, forms: seq<DelegateForm>): seq<SetupError> {
    (if CountInRange(count) then [] else [InvalidDelegateCount])
    + BlankNameErrors(forms)
    + (if DistinctDelegations(forms) then [] else [DuplicateDelegationNames])
  }

  /** The per-form pass of `validateForms`. */
  method CollectBlankNameErrors(forms: seq<DelegateForm>) returns (errors: seq<SetupError>)
    ensures errors == BlankNameErrors(forms)
  {
    errors := [];
    for index := 0 to |forms|
      invariant errors == BlankNameErrors(forms[..index])
    {
      var form := forms[index];
      var noDelegation := TrimsToEmpty(form.delegationName);
      if noDelegation {
        errors := errors + [MissingDelegationName(index + 1)];
      }
      var noDelegate := TrimsToEmpty(form.delegateName);
      if noDelegate {
        errors := errors + [MissingDelegateName(index + 1)];
      }
      assert forms[..index + 1][..index] == forms[..index];
    }
    assert forms[..|forms|] == forms;
  }

  /** The duplicate check of `validateForms`: the set of normalized delegation names is smaller
      than the list exactly when two of them coincide. */
  method HasDuplicateNames(forms: seq<DelegateForm>) returns (duplicate: bool)
    ensures duplicate <==> !DistinctDelegations(forms)
  {
    var names := NormalizedNames(forms);
    duplicate := |ArrayOps.Elements(names)| != |names|;
    ArrayOps.SetSizeIffDistinct(names);
    assert ArrayOps.Distinct(names) <==> DistinctDelegations(forms);
  }

  /** `validateForms`: the error list. */
  method CollectSetupErrors(count: int, forms: seq<DelegateForm>) returns (errors: seq<SetupError>)
    ensures errors == SetupErrors(count, forms)
  {
    var countErrors := if CountInRange(count) then [] else [InvalidDelegateCount];
    var blankErrors := CollectBlankNameErrors(forms);
    var duplicate := HasDuplicateNames(forms);
    errors := countErrors + blankErrors + if duplicate then [DuplicateDelegationNames] else [];
  }

  /** A blank delegation name is reported under its own position, and only a blank one is. */
  lemma {:induction false} MissingDelegationReported(forms: seq<DelegateForm>, position: nat)
    ensures MissingDelegationName(position) in BlankNameErrors(forms) <==>
              1 <= position <= |forms| && IsBlank(forms[position - 1].delegationName)
    decreases |forms|
  {
    if forms != [] {
      var front := forms[..|forms| - 1];
      MissingDelegationReported(front, position);
      if 1 <= position < |forms| {
        assert front[position - 1] == forms[position - 1];
      }
    }
  }

  /** A blank delegate name is reported under its own position, and only a blank one is. */
  lemma {:induction false} MissingDelegateReported(forms: seq<DelegateForm>, position: nat)
    ensures MissingDelegateName(position) in BlankNameErrors(forms) <==>
              1 <= position <= |forms| && IsBlank(forms[position - 1].delegateName)
    decreases |forms|
  {
    if forms != [] {
      var front := forms[..|forms| - 1];
      MissingDelegateReported(front, position);
      if 1 <= position < |forms| {
        assert front[position - 1] == forms[position - 1];
      }
    }
  }

  predicate NoBlankNames(forms: seq<DelegateForm>) {
    forall i :: 0 <= i < |forms| ==> !IsBlank(forms[i].delegationName) && !IsBlank(forms[i].delegateName)
  }

  lemma {:induction false} NoBlankErrorsIff(forms: seq<DelegateForm>)
    ensures BlankNameErrors(forms) == [] <==> NoBlankNames(forms)
    decreases |forms|
  {
    if forms != [] {
      var front := forms[..|forms| - 1];
      NoBlankErrorsIff(front);
      assert forall i :: 0 <= i < |front| ==> front[i] == forms[i];
    }
  }

  /** A roster passes validation exactly when its size is in 5..50, no name is blank, and no two
      delegation names coincide once trimmed and lower-cased. */
  lemma SetupValidIff(count: int, forms: seq<DelegateForm>)
    ensures SetupErrors(count, forms) == [] <==>
              CountInRange(count) && NoBlankNames(forms) && DistinctDelegations(forms)
  {
    NoBlankErrorsIff(forms);
  }

  /** The id of the delegate built from the form at 0-based `index`. */
  function DelegateId(index: nat): string {
    "delegate-" + NatToString(index + 1)
  }

  /** Different positions get different ids. */
  lemma DelegateIdsDistinct(i: nat, j: nat)
    ensures DelegateId(i) == DelegateId(j) <==> i == j
  {
    if DelegateId(i) == DelegateId(j) {
      assert DelegateId(i)[9..] == NatToString(i + 1);
      assert DelegateId(j)[9..] == NatToString(j + 1);
      NatToStringInjective(i + 1, j + 1);
    }
  }

  /** The roster `handleStartSession` builds: one delegate per form, in form order. */
  function BuildDelegates(forms: seq<DelegateForm>): (r: seq<Delegate>)
    ensures |r| == |forms|
    ensures forall i :: 0 <= i < |forms| ==>
              r[i] == Delegate(DelegateId(i), Trim(forms[i].delegationName), Trim(forms[i].delegateName), [], [])
  {
    seq(|forms|, i requires 0 <= i < |forms| =>
      Delegate(DelegateId(i), Trim(forms[i].delegationName), Trim(forms[i].delegateName), [], []))
  }

  /** A name that is not blank keeps a non-empty trimmed form, which trimming and normalizing
      treat as they treat the name itself. */
  lemma TrimmedName(name: string)
    requires !IsBlank(name)
    ensures Trim(name) != [] && Trim(Trim(name)) == Trim(name)
    ensures NormalizedName(Trim(name)) == NormalizedName(name)
  {
    TrimIdempotent(name);
  }

  /** What a roster built from valid forms guarantees: ids are distinct, names are non-empty and
      carry no surrounding whitespace, and delegation names stay distinct under the comparison. */
  lemma ValidRoster(count: int, forms: seq<DelegateForm>)
    requires SetupErrors(count, forms) == []
    ensures var roster := BuildDelegates(forms);
      && (forall i, j :: 0 <= i < j < |roster| ==> roster[i].id != roster[j].id)
      && (forall i :: 0 <= i < |roster| ==> roster[i].delegationName != [] && roster[i].delegateName != [])
      && (forall i :: 0 <= i < |roster| ==>
            Trim(roster[i].delegationName) == roster[i].delegationName
            && Trim(roster[i].delegateName) == roster[i].delegateName)
      && (forall i, j :: 0 <= i < j < |roster| ==>
            NormalizedName(roster[i].delegationName) != NormalizedName(roster[j].delegationName))
  {
    var roster := BuildDelegates(forms);
    SetupValidIff(count, forms);
    forall i, j | 0 <= i < j < |roster| ensures roster[i].id != roster[j].id {
      DelegateIdsDistinct(i, j);
    }
    forall i | 0 <= i < |roster|
      ensures roster[i].delegationName != [] && roster[i].delegateName != []
      ensures Trim(roster[i].delegationName) == roster[i].delegationName
      ensures Trim(roster[i].delegateName) == roster[i].delegateName
    {
      TrimmedName(forms[i].delegationName);
      TrimmedName(forms[i].delegateName);
    }
    forall i, j | 0 <= i < j < |roster|
      ensures NormalizedName(roster[i].delegationName) != NormalizedName(roster[j].delegationName)
    {
      TrimmedName(forms[i].delegationName);
      TrimmedName(forms[j].delegationName);
    }
  }

  class SetupScreen {
    var numberOfDelegates: int
    var delegateForms: seq<DelegateForm>
    var showDelegateForms: bool
    var errors: seq<SetupError>

    /** The forms on screen match the roster size: as many as it says when it is in range, none otherwise. */
    ghost predicate Valid()
      reads this
    {
      && (CountInRange(numberOfDelegates) ==> |delegateForms| == numberOfDelegates)
      && (!CountInRange(numberOfDelegates) ==> delegateForms == [])
      && showDelegateForms == CountInRange(numberOfDelegates)
    }

    constructor ()
      ensures numberOfDelegates == 0 && delegateForms == [] && !showDelegateForms && errors == []
      ensures Valid()
    {
      numberOfDelegates := 0;
      delegateForms := [];
      showDelegateForms := false;
      errors := [];
    }

    /** `handleNumberOfDelegatesChange`: a size in 5..50 gives that many empty forms and clears the
        errors; any other size removes the forms and leaves the errors. */
    method ChangeNumberOfDelegates(value: int)
      modifies this
      ensures numberOfDelegates == value
      ensures CountInRange(value) ==> delegateForms == BlankForms(value) && showDelegateForms && errors == []
      ensures !CountInRange(value) ==> delegateForms == [] && !showDelegateForms && errors == old(errors)
      ensures Valid()
    {
      numberOfDelegates := value;
      if CountInRange(value) {
        delegateForms := BlankForms(value);
        showDelegateForms := true;
        errors := [];
      } else {
        showDelegateForms := false;
        delegateForms := [];
      }
    }

    /** `handleDelegateFormChange`: only the chosen field of the chosen form changes. */
    method ChangeDelegateForm(index: int, field: FormField, value: string)
      requires 0 <= index < |delegateForms|
      modifies this`delegateForms
      ensures delegateForms == old(delegateForms)[index := SetField(old(delegateForms)[index], field, value)]
      ensures old(Valid()) ==> Valid()
    {
      delegateForms := delegateForms[index := SetField(delegateForms[index], field, value)];
    }

    /** `validateForms`: the errors are recorded, and the forms are valid when there are none. */
    method ValidateForms() returns (ok: bool)
      modifies this`errors
      ensures errors == SetupErrors(numberOfDelegates, delegateForms)
      ensures ok <==> errors == []
    {
      errors := CollectSetupErrors(numberOfDelegates, delegateForms);
      ok := errors == [];
    }

    /** `handleStartSession`: a roster is handed on only when validation passes, and then it has
        between 5 and 50 delegates. */
    method StartSession() returns (roster: Option<seq<Delegate>>)
      modifies this`errors
      ensures errors == SetupErrors(numberOfDelegates, delegateForms)
      ensures roster.Some? <==> errors == []
      ensures roster.Some? ==> roster.value == BuildDelegates(delegateForms)
      ensures Valid() && roster.Some? ==> MinDelegates <= |roster.value| <= MaxDelegates
    {
      var ok := ValidateForms();
      if ok {
        roster := Some(BuildDelegates(delegateForms));
      } else {
        roster := None;
      }
    }
  }
}
