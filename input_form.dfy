/**
 * The form that adds a participant (components/PersonInputForm.tsx): two
 * text fields and an error line; submitting checks the name, then the
 * amount, and hands a valid pair to the page.
 */
module InputForm {
  import opened Options
  import opened Numbers
  import Strings

  const NameError: string := "Name cannot be empty."
  const AmountError: string := "Please enter a valid non-negative amount."

  /** What a submission leads to: an error message, or a participant to add. */
  datatype Outcome = Rejected(message: string) | Accepted(name: string, amountSpent: real)

  /** The checks of `handleSubmit`, in the order it makes them. */
  function Submit(name: string, amount: string): Outcome
  {
    if Strings.Trim(name) == [] then Rejected(NameError)
    else
      match ParseNumber(amount)
      case None => Rejected(AmountError)
      case Some(spent) => if spent < 0.0 then Rejected(AmountError) else Accepted(Strings.Trim(name), spent)
  }

  /**
   * A submission is accepted exactly when the name has something besides
   * white space and the amount reads as a non-negative number; what is added
   * is the trimmed name and that number.
   */
  lemma SubmitAcceptsValid(name: string, amount: string)
    ensures Submit(name, amount).Accepted? <==>
      !Strings.AllSpace(name) && ParseNumber(amount).Some? && ParseNumber(amount).value >= 0.0
    ensures Submit(name, amount).Accepted? ==>
      Submit(name, amount) == Accepted(Strings.Trim(name), ParseNumber(amount).value)
  {
    Strings.TrimEmptyIffAllSpace(name);
  }

  /** The name is checked first: a blank name is reported whatever the amount. */
  lemma BlankNameFirst(name: string, amount: string)
    requires Strings.AllSpace(name)
    ensures Submit(name, amount) == Rejected(NameError)
  {
    Strings.TrimEmptyIffAllSpace(name);
  }

  /** An amount field with no digit in it (the empty field, say) is reported once the name is fine. */
  lemma AmountNeedsDigit(name: string, amount: string)
    requires !Strings.AllSpace(name)
    requires forall k :: 0 <= k < |amount| ==> !IsDigit(amount[k])
    ensures Submit(name, amount) == Rejected(AmountError)
  {
    Strings.TrimEmptyIffAllSpace(name);
    ParseNumberNeedsDigit(amount);
  }

  /** The form's state: the two fields and the error line. */
  class PersonInputForm {
    var name: string
    var amount: string
    var error: Option<string>

    constructor()
      ensures name == [] && amount == [] && error == None
    {
      name := [];
      amount := [];
      error := None;
    }

    /**
     * `handleSubmit`: on a fault the error line is set and the fields are
     * kept; otherwise the error is cleared, `onAddPerson` receives the
     * trimmed name and the amount (returned here) and both fields are emptied.
     */
    method HandleSubmit() returns (added: Option<(string, real)>)
      modifies this
      ensures match Submit(old(name), old(amount))
        case Rejected(message) =>
          added == None && error == Some(message) && name == old(name) && amount == old(amount)
        case Accepted(n, spent) =>
          added == Some((n, spent)) && error == None && name == [] && amount == []
    {
      if Strings.Trim(name) == [] {
        error := Some(NameError);
        return None;
      }
      var spentAmount := ParseNumber(amount);
      if spentAmount.None? || spentAmount.value < 0.0 {
        error := Some(AmountError);
        return None;
      }
      error := None;
      added := Some((Strings.Trim(name), spentAmount.value));
      name := [];
      amount := [];
    }

    /** Typing in the name field replaces it and clears the error. */
    method OnNameChange(value: string)
      modifies this
      ensures name == value && error == None && amount == old(amount)
    {
      name := value;
      error := None;
    }

    /** Typing in the amount field replaces it and clears the error. */
    method OnAmountChange(value: string)
      modifies this
      ensures amount == value && error == None && name == old(name)
    {
      amount := value;
      error := None;
    }
  }
}
