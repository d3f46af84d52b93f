/**
 * The application state (App.tsx): the list of participants, the list edits
 * the handlers apply to it, the settlement recomputed whenever it changes,
 * and the shape check applied to a list read from a share link.
 */
module App {
  import opened Options
  import opened People
  import Settlement
  import Stats

  // ---------------------------------------------------------------------------
  // List edits

  /** `[...prevPeople, newPerson]`: the new record goes at the end, after the unchanged list. */
  function AddPerson(people: seq<Person>, id: Id, name: string, amountSpent: real): (r: seq<Person>)
    ensures |r| == |people| + 1 && r[..|people|] == people
    ensures r[|people|] == Person(id, name, amountSpent)
  {
    people + [Person(id, name, amountSpent)]
  }

  /** `prevPeople.filter(person => person.id !== personId)`. */
  function RemovePerson(people: seq<Person>, id: Id): (r: seq<Person>)
    ensures forall p :: p in r <==> p in people && p.id != id
  {
    if people == [] then []
    else (if people[0].id == id then [] else [people[0]]) + RemovePerson(people[1..], id)
  }

  /** Removing from a list made of two parts removes from each part in place, so the order is kept. */
  lemma {:induction false} RemoveSplits(a: seq<Person>, b: seq<Person>, id: Id)
    ensures RemovePerson(a + b, id) == RemovePerson(a, id) + RemovePerson(b, id)
  {
    if a == [] {
      assert a + b == b;
    } else {
      assert (a + b)[1..] == a[1..] + b;
      RemoveSplits(a[1..], b, id);
    }
  }

  /** Removing an id nobody has changes nothing. */
  lemma {:induction false} RemoveAbsent(people: seq<Person>, id: Id)
    requires forall i :: 0 <= i < |people| ==> people[i].id != id
    ensures RemovePerson(people, id) == people
  {
    if people != [] {
      RemoveAbsent(people[1..], id);
    }
  }

  /** Removing twice is removing once. */
  lemma RemoveIdempotent(people: seq<Person>, id: Id)
    ensures RemovePerson(RemovePerson(people, id), id) == RemovePerson(people, id)
  {
    var r := RemovePerson(people, id);
    forall i | 0 <= i < |r| ensures r[i].id != id {
      assert r[i] in r;
    }
    RemoveAbsent(r, id);
  }

  /** `prevPeople.map(...)`: records with the id get the new name and amount and keep their id; the rest are left alone. */
  function UpdatePerson(people: seq<Person>, id: Id, name: string, amountSpent: real): (r: seq<Person>)
    ensures |r| == |people|
    ensures forall i :: 0 <= i < |r| ==> r[i].id == people[i].id
    ensures forall i :: 0 <= i < |r| && people[i].id == id ==> r[i].name == name && r[i].amountSpent == amountSpent
    ensures forall i :: 0 <= i < |r| && people[i].id != id ==> r[i] == people[i]
  {
    seq(|people|, i requires 0 <= i < |people| =>
      if people[i].id == id then people[i].(name := name, amountSpent := amountSpent) else people[i])
  }

  /** Updating an id nobody has changes nothing. */
  lemma UpdateAbsent(people: seq<Person>, id: Id, name: string, amountSpent: real)
    requires forall i :: 0 <= i < |people| ==> people[i].id != id
    ensures UpdatePerson(people, id, name, amountSpent) == people
  {
  }

  /** An update touches only the records that carry the id: removing them afterwards undoes it. */
  lemma {:induction false} RemoveAfterUpdate(people: seq<Person>, id: Id, name: string, amountSpent: real)
    ensures RemovePerson(UpdatePerson(people, id, name, amountSpent), id) == RemovePerson(people, id)
  {
    if people != [] {
      var u := UpdatePerson(people, id, name, amountSpent);
      assert u[1..] == UpdatePerson(people[1..], id, name, amountSpent);
      RemoveAfterUpdate(people[1..], id, name, amountSpent);
    }
  }

  /** The later of two updates to the same id wins. */
  lemma UpdateTwice(people: seq<Person>, id: Id, name1: string, amount1: real, name2: string, amount2: real)
    ensures UpdatePerson(UpdatePerson(people, id, name1, amount1), id, name2, amount2)
         == UpdatePerson(people, id, name2, amount2)
  {
  }

  // ---------------------------------------------------------------------------
  // The recomputed settlement

  /** The effect on `people`: no participants, no instructions; otherwise `calculateSettlements`. */
  function TransactionsFor(people: seq<Person>): (txs: seq<Transaction>)
  {
    if |people| > 0 then Settlement.Settlements(people) else []
  }

  /** The effect's guard changes nothing: the settlement of an empty list is already empty. */
  lemma TransactionsAreSettlements(people: seq<Person>)
    ensures TransactionsFor(people) == Settlement.Settlements(people)
  {
  }

  /**
   * Whenever the recomputed settlement has instructions, the statistics card
   * names a sponsor: every amount is at least a cent, above its half-cent bar.
   */
  lemma SponsorWhenSettling(people: seq<Person>)
    requires |TransactionsFor(people)| > 0
    ensures Stats.SponsorOf(people, TransactionsFor(people)).Some?
  {
    var txs := TransactionsFor(people);
    Settlement.SettlementsSound(people);
    assert forall k :: 0 <= k < |txs| ==> Settlement.Sound(people, txs[k]);
    Stats.SponsorWhenPaymentsDue(people, txs);
  }

  // ---------------------------------------------------------------------------
  // The share link

  /** A parsed JSON value (JSON parsing never yields NaN, so numbers are plain reals). */
  datatype Value =
    | Null
    | Bool(b: bool)
    | Number(n: real)
    | Str(s: string)
    | Array(items: seq<Value>)
    | Object(fields: map<string, Value>)

  predicate HasString(v: Value, key: string)
  {
    v.Object? && key in v.fields && v.fields[key].Str?
  }

  /** An element passes the check: string `id`, string `name` and numeric `amountSpent`. */
  predicate IsPersonRecord(v: Value)
  {
    HasString(v, "id") && HasString(v, "name") && "amountSpent" in v.fields && v.fields["amountSpent"].Number?
  }

  function PersonOf(v: Value): Person
    requires IsPersonRecord(v)
  {
    Person(v.fields["id"].s, v.fields["name"].s, v.fields["amountSpent"].n)
  }

  /**
   * The list a shared payload stands for, or `None` when it fails the check
   * (not an array, or some element lacks a string id, a string name or a
   * numeric amount); negative amounts are let through.
   */
  function PeopleOf(v: Value): (r: Option<seq<Person>>)
    ensures r.Some? ==> v.Array? && |r.value| == |v.items|
  {
    if v.Array? && forall i :: 0 <= i < |v.items| ==> IsPersonRecord(v.items[i]) then
      Some(seq(|v.items|, i requires 0 <= i < |v.items| && IsPersonRecord(v.items[i]) => PersonOf(v.items[i])))
    else None
  }

  /** A participant as `JSON.stringify` writes it. */
  function RecordOf(p: Person): Value
  {
    Object(map["id" := Str(p.id), "name" := Str(p.name), "amountSpent" := Number(p.amountSpent)])
  }

  /** The payload `handleShare` encodes. */
  function Payload(people: seq<Person>): Value
  {
    Array(seq(|people|, i requires 0 <= i < |people| => RecordOf(people[i])))
  }

  /** A shared list passes the check and reads back as the same list. */
  lemma ShareRoundTrip(people: seq<Person>)
    ensures PeopleOf(Payload(people)) == Some(people)
  {
    var v := Payload(people);
    forall i | 0 <= i < |people| ensures IsPersonRecord(v.items[i]) && PersonOf(v.items[i]) == people[i] {
      var f := v.items[i].fields;
      assert f["id"] == Str(people[i].id) && f["name"] == Str(people[i].name);
      assert f["amountSpent"] == Number(people[i].amountSpent);
    }
    assert PeopleOf(v).Some?;
    assert PeopleOf(v).value == people;
  }

  /** Each element of an accepted payload becomes the participant its fields describe. */
  lemma AcceptedRecords(v: Value)
    requires PeopleOf(v).Some?
    ensures forall i :: 0 <= i < |v.items| ==>
      && IsPersonRecord(v.items[i])
      && PeopleOf(v).value[i] == Person(v.items[i].fields["id"].s, v.items[i].fields["name"].s, v.items[i].fields["amountSpent"].n)
  {
  }

  /** A payload with an element that is not a participant record is rejected as a whole. */
  lemma RejectsBadRecord(v: Value, i: nat)
    requires v.Array? && i < |v.items| && !IsPersonRecord(v.items[i])
    ensures PeopleOf(v) == None
  {
  }

  // ---------------------------------------------------------------------------
  // The component's state

  /** The `people` and `transactions` state of the page, with the settlement kept up to date. */
  class Session {
    var people: seq<Person>
    var transactions: seq<Transaction>

    /** The instructions always belong to the current list. */
    ghost predicate Valid()
      reads this
    {
      transactions == TransactionsFor(people)
    }

    constructor()
      ensures Valid()
      ensures people == [] && transactions == []
    {
      people := [];
      transactions := [];
    }

    /** The effect that runs after `people` changes. */
    method Recompute()
      modifies this
      ensures people == old(people)
      ensures Valid()
    {
      if |people| > 0 {
        transactions := Settlement.CalculateSettlements(people);
      } else {
        transactions := [];
      }
    }

    /** `handleAddPerson`, with the fresh id passed in. */
    method HandleAddPerson(id: Id, name: string, amountSpent: real)
      modifies this
      ensures people == old(people) + [Person(id, name, amountSpent)]
      ensures Valid()
    {
      people := AddPerson(people, id, name, amountSpent);
      Recompute();
    }

    /** `handleRemovePerson`. */
    method HandleRemovePerson(id: Id)
      modifies this
      ensures people == RemovePerson(old(people), id)
      ensures Valid()
    {
      people := RemovePerson(people, id);
      Recompute();
    }

    /** `handleUpdatePerson`. */
    method HandleUpdatePerson(id: Id, name: string, amountSpent: real)
      modifies this
      ensures people == UpdatePerson(old(people), id, name, amountSpent)
      ensures Valid()
    {
      people := UpdatePerson(people, id, name, amountSpent);
      Recompute();
    }

    /** The mount effect with a `data` parameter: the list is replaced only when the payload passes the check. */
    method LoadShared(payload: Value)
      requires Valid()
      modifies this
      ensures people == (match PeopleOf(payload) case Some(shared) => shared case None => old(people))
      ensures Valid()
    {
      match PeopleOf(payload)
      case Some(shared) =>
        people := shared;
        Recompute();
      case None =>
    }
  }
}
