/**
 * One row of the participant list (components/PersonListItem.tsx): the name
 * and the amount can each be edited in place; committing an edit asks the
 * page to update the participant, which it does only when something changed.
 */
module ListItem {
  import opened Options
  import opened Numbers
  import opened People
  import Strings
  import App

  /** The arguments of one `onUpdatePerson` call. */
  datatype Update = Update(id: Id, name: string, amountSpent: real)

  /**
   * The call a name commit makes: the trimmed buffer, when it is not empty
   * and differs from the current name, with the amount unchanged.
   */
  function NameCommit(person: Person, edited: string): Option<Update>
  {
    var trimmed := Strings.Trim(edited);
    if trimmed != [] && trimmed != person.name then Some(Update(person.id, trimmed, person.amountSpent))
    else None
  }

  /** The amount buffer reads as a number that is not negative. */
  predicate AmountValid(edited: string)
  {
    ParseNumber(edited).Some? && ParseNumber(edited).value >= 0.0
  }

  /**
   * The call an amount commit makes: the valid amount rounded to cents, when
   * that differs from the current amount rounded to cents, with the name
   * unchanged.
   */
  function AmountCommit(person: Person, edited: string): Option<Update>
  {
    if AmountValid(edited) && Round2(ParseNumber(edited).value) != Round2(person.amountSpent) then
      Some(Update(person.id, person.name, Round2(ParseNumber(edited).value)))
    else None
  }

  /**
   * A name commit updates exactly when the buffer holds more than white space
   * and its trimmed text is not the current name; the update keeps the id and
   * the amount and carries a name with no white space at either end.
   */
  lemma NameCommitMeaning(person: Person, edited: string)
    ensures NameCommit(person, edited).Some? <==>
      !Strings.AllSpace(edited) && Strings.Trim(edited) != person.name
    ensures match NameCommit(person, edited)
      case Some(u) =>
        && u.id == person.id && u.amountSpent == person.amountSpent
        && u.name != [] && u.name != person.name
        && !Strings.IsSpace(u.name[0]) && !Strings.IsSpace(u.name[|u.name| - 1])
      case None => true
  {
    Strings.TrimEmptyIffAllSpace(edited);
    Strings.TrimEnds(edited);
  }

  /**
   * An amount commit updates exactly when the buffer is valid and differs
   * from the current amount in whole cents; the update keeps the id and the
   * name, and its amount is a whole number of cents, not negative, within
   * half a cent of what was typed.
   */
  lemma AmountCommitMeaning(person: Person, edited: string)
    ensures AmountCommit(person, edited).Some? <==>
      AmountValid(edited) && Round2(ParseNumber(edited).value) != Round2(person.amountSpent)
    ensures match AmountCommit(person, edited)
      case Some(u) =>
        && u.id == person.id && u.name == person.name
        && u.amountSpent >= 0.0 && Round2(u.amountSpent) == u.amountSpent
        && u.amountSpent != Round2(person.amountSpent)
        && Abs(u.amountSpent - ParseNumber(edited).value) <= 0.005
      case None => true
  {
    if AmountValid(edited) {
      var x := ParseNumber(edited).value;
      Round2Idempotent(x);
      assert Cents(x) >= 0;
    }
  }

  /**
   * Committing the amount text the row displays (`toFixed(2)` of the
   * current amount) never sends an update, whatever the amount.
   */
  lemma DisplayedAmountIsNoChange(person: Person)
    ensures AmountCommit(person, ToFixed2(person.amountSpent)) == None
  {
    ParseToFixed2(person.amountSpent);
    Round2Idempotent(person.amountSpent);
  }

  /**
   * After the page applies an update, committing the same buffer again sends
   * nothing: the row's record already holds what was typed.
   */
  lemma CommitSettles(people: seq<Person>, i: nat, edited: string)
    requires i < |people|
    ensures match NameCommit(people[i], edited)
      case Some(u) =>
        var q := App.UpdatePerson(people, u.id, u.name, u.amountSpent);
        q[i] == people[i].(name := u.name) && NameCommit(q[i], edited) == None
      case None => true
    ensures match AmountCommit(people[i], edited)
      case Some(u) =>
        var q := App.UpdatePerson(people, u.id, u.name, u.amountSpent);
        q[i] == people[i].(amountSpent := u.amountSpent) && AmountCommit(q[i], edited) == None
      case None => true
  {
    if AmountValid(edited) {
      Round2Idempotent(ParseNumber(edited).value);
    }
  }

  /** The row's state: the participant it shows and the two edit buffers. */
  class PersonListItem {
    var person: Person
    var isEditingName: bool
    var editedName: string
    var isEditingAmount: bool
    var editedAmount: string

    /** The initial state; `amountText` is `person.amountSpent.toString()`. */
    constructor(person: Person, amountText: string)
      ensures this.person == person && !isEditingName && !isEditingAmount
      ensures editedName == person.name && editedAmount == amountText
    {
      this.person := person;
      isEditingName := false;
      editedName := person.name;
      isEditingAmount := false;
      editedAmount := amountText;
    }

    /** The effect on `person` and the editing flags: a buffer not being edited shows the current record. */
    method SyncFromPerson()
      modifies this
      ensures person == old(person) && isEditingName == old(isEditingName) && isEditingAmount == old(isEditingAmount)
      ensures editedName == if isEditingName then old(editedName) else person.name
      ensures editedAmount == if isEditingAmount then old(editedAmount) else ToFixed2(person.amountSpent)
    {
      if !isEditingName {
        editedName := person.name;
      }
      if !isEditingAmount {
        editedAmount := ToFixed2(person.amountSpent);
      }
    }

    /** A new `person` prop from the page, followed by the effect it triggers. */
    method ReceivePerson(p: Person)
      modifies this
      ensures person == p && isEditingName == old(isEditingName) && isEditingAmount == old(isEditingAmount)
      ensures editedName == if isEditingName then old(editedName) else p.name
      ensures editedAmount == if isEditingAmount then old(editedAmount) else ToFixed2(p.amountSpent)
    {
      person := p;
      SyncFromPerson();
    }

    /** Clicking the name starts editing it. */
    method StartEditingName()
      modifies this
      ensures isEditingName
      ensures person == old(person) && editedName == old(editedName)
      ensures isEditingAmount == old(isEditingAmount) && editedAmount == old(editedAmount)
    {
      isEditingName := true;
    }

    /** Clicking the amount starts editing it. */
    method StartEditingAmount()
      modifies this
      ensures isEditingAmount
      ensures person == old(person) && editedAmount == old(editedAmount)
      ensures isEditingName == old(isEditingName) && editedName == old(editedName)
    {
      isEditingAmount := true;
    }

    /** Typing in the name input. */
    method OnNameChange(value: string)
      modifies this
      ensures editedName == value
      ensures person == old(person) && isEditingName == old(isEditingName)
      ensures isEditingAmount == old(isEditingAmount) && editedAmount == old(editedAmount)
    {
      editedName := value;
    }

    /** Typing in the amount input. */
    method OnAmountChange(value: string)
      modifies this
      ensures editedAmount == value
      ensures person == old(person) && isEditingAmount == old(isEditingAmount)
      ensures isEditingName == old(isEditingName) && editedName == old(editedName)
    {
      editedAmount := value;
    }

    /**
     * `handleNameSubmit` (Enter or leaving the input): the update it asks
     * for, if any, is returned; a blank buffer reverts to the current name;
     * name editing ends either way.
     */
    method HandleNameSubmit() returns (update: Option<Update>)
      modifies this
      ensures update == NameCommit(old(person), old(editedName))
      ensures !isEditingName
      ensures editedName == if Strings.Trim(old(editedName)) == [] then person.name else old(editedName)
      ensures person == old(person) && isEditingAmount == old(isEditingAmount) && editedAmount == old(editedAmount)
    {
      var trimmedName := Strings.Trim(editedName);
      if trimmedName != [] && trimmedName != person.name {
        update := Some(Update(person.id, trimmedName, person.amountSpent));
      } else {
        update := None;
        if trimmedName == [] {
          editedName := person.name;
        }
      }
      isEditingName := false;
    }

    /** `handleNameKeyDown`: Enter commits, Escape restores the name and ends editing, other keys do nothing. */
    method HandleNameKeyDown(key: string) returns (update: Option<Update>)
      modifies this
      ensures key == "Enter" ==> update == NameCommit(old(person), old(editedName)) && !isEditingName
      ensures key == "Enter" ==>
        editedName == if Strings.Trim(old(editedName)) == [] then person.name else old(editedName)
      ensures key == "Escape" ==> update == None && editedName == person.name && !isEditingName
      ensures key != "Enter" && key != "Escape" ==>
        update == None && editedName == old(editedName) && isEditingName == old(isEditingName)
      ensures person == old(person) && isEditingAmount == old(isEditingAmount) && editedAmount == old(editedAmount)
    {
      if key == "Enter" {
        update := HandleNameSubmit();
      } else if key == "Escape" {
        editedName := person.name;
        isEditingName := false;
        update := None;
      } else {
        update := None;
      }
    }

    /**
     * `handleAmountSubmit` (Enter or leaving the input): both amounts are
     * rounded through `toFixed(2)` and read back before they are compared; an
     * invalid buffer reverts to the current amount as displayed; amount
     * editing ends either way.
     */
    method HandleAmountSubmit() returns (update: Option<Update>)
      modifies this
      ensures update == AmountCommit(old(person), old(editedAmount))
      ensures !isEditingAmount
      ensures editedAmount == if AmountValid(old(editedAmount)) then old(editedAmount) else ToFixed2(person.amountSpent)
      ensures person == old(person) && isEditingName == old(isEditingName) && editedName == old(editedName)
    {
      var newAmount := ParseNumber(editedAmount);
      if newAmount.Some? && newAmount.value >= 0.0 {
        var rounded := RoundViaString(newAmount.value);
        var current := RoundViaString(person.amountSpent);
        if rounded != current {
          update := Some(Update(person.id, person.name, rounded));
        } else {
          update := None;
        }
      } else {
        update := None;
        editedAmount := ToFixed2(person.amountSpent);
      }
      isEditingAmount := false;
    }

    /** `handleAmountKeyDown`: Enter commits, Escape restores the displayed amount and ends editing, other keys do nothing. */
    method HandleAmountKeyDown(key: string) returns (update: Option<Update>)
      modifies this
      ensures key == "Enter" ==> update == AmountCommit(old(person), old(editedAmount)) && !isEditingAmount
      ensures key == "Enter" ==>
        editedAmount == if AmountValid(old(editedAmount)) then old(editedAmount) else ToFixed2(person.amountSpent)
      ensures key == "Escape" ==> update == None && editedAmount == ToFixed2(person.amountSpent) && !isEditingAmount
      ensures key != "Enter" && key != "Escape" ==>
        update == None && editedAmount == old(editedAmount) && isEditingAmount == old(isEditingAmount)
      ensures person == old(person) && isEditingName == old(isEditingName) && editedName == old(editedName)
    {
      if key == "Enter" {
        update := HandleAmountSubmit();
      } else if key == "Escape" {
        editedAmount := ToFixed2(person.amountSpent);
        isEditingAmount := false;
        update := None;
      } else {
        update := None;
      }
    }
  }
}
