/** The colon-separated relationship string in the identity token, whose organisation name may itself contain colons. */
module Relationships {
  import opened Common
  import opened Strings

  datatype Result<+T> = Success(value: T) | Failure

  const FIELDS := 6

  /** Relationship id, SBI, organisation name, organisation level of assurance, relationship, its level of assurance. */
  function ExtractFarmDetails(relationships: Option<string>): Result<seq<string>> {
    var parts := if relationships.Some? then Split(relationships.value, ':') else [];
    var n := |parts|;
    if n < FIELDS then Failure
    else if n == FIELDS then Success(parts)
    else Success([parts[0], parts[1], Join(parts[2..n - 3], ':'), parts[n - 3], parts[n - 2], parts[n - 1]])
  }

  /** Exactly the strings with at least five colons are accepted. */
  lemma AcceptsFiveColons(s: string)
    ensures ExtractFarmDetails(Some(s)).Success? <==> Count(s, ':') >= 5
  {
    SplitCounts(s, ':');
  }

  /** Joining the six extracted fields gives back any accepted string. */
  lemma {:induction false} PrinterUndoesParser(s: string)
    requires ExtractFarmDetails(Some(s)).Success?
    ensures |ExtractFarmDetails(Some(s)).value| == FIELDS
    ensures Join(ExtractFarmDetails(Some(s)).value, ':') == s
  {
    var parts := Split(s, ':');
    var n := |parts|;
    JoinUndoesSplit(s, ':');
    hide Split, Join;
    if n > FIELDS {
      var head, middle, tail := parts[..2], parts[2..n - 3], parts[n - 3..];
      JoinRegroups(head, middle, tail, ':');
      assert parts == head + middle + tail;
      assert tail == [parts[n - 3], parts[n - 2], parts[n - 1]];
      assert ExtractFarmDetails(Some(s)).value == head + [Join(middle, ':')] + tail;
    }
  }

  lemma SplitOfSix(fields: seq<string>)
    requires |fields| == FIELDS && forall i :: 0 <= i < FIELDS && i != 2 ==> ':' !in fields[i]
    ensures Split(Join(fields, ':'), ':') == fields[..2] + Split(fields[2], ':') + fields[3..]
  {
    hide Split, Join;
    SplitOfJoin(fields, ':');
    SplitWithout(fields[0], ':');
    SplitWithout(fields[1], ':');
    SplitAllWithout(fields[3..], ':');
    assert fields[1..][1..] == fields[2..] && fields[2..][1..] == fields[3..];
    assert SplitAll(fields[2..], ':') == Split(fields[2], ':') + fields[3..];
    assert SplitAll(fields[1..], ':') == [fields[1]] + SplitAll(fields[2..], ':');
  }

  predicate OnlyNameHasColons(fields: seq<string>)
    requires |fields| == FIELDS
  {
    forall i :: 0 <= i < FIELDS && i != 2 ==> ':' !in fields[i]
  }

  lemma RecoversFields(fields: seq<string>)
    requires |fields| == FIELDS && OnlyNameHasColons(fields)
    ensures ExtractFarmDetails(Some(Join(fields, ':'))) == Success(fields)
  {
    hide Split, Join;
    var name := Split(fields[2], ':');
    SplitOfSix(fields);
    JoinUndoesSplit(fields[2], ':');
    JoinOfOne(name[0], ':');
    var parts := Split(Join(fields, ':'), ':');
    var n := |parts|;
    assert parts[2..n - 3] == name;
    assert parts[0] == fields[0] && parts[1] == fields[1];
    assert parts[n - 3] == fields[3] && parts[n - 2] == fields[4] && parts[n - 1] == fields[5];
    if n == FIELDS {
      assert name == [name[0]];
      assert parts == fields;
    } else {
      assert [parts[0], parts[1], Join(name, ':'), parts[n - 3], parts[n - 2], parts[n - 1]] == fields;
    }
  }

  /** Extraction recovers the six fields exactly when at most the organisation name contains colons. */
  lemma ParserUndoesPrinter(fields: seq<string>)
    requires |fields| == FIELDS
    ensures ExtractFarmDetails(Some(Join(fields, ':'))) == Success(fields) <==> OnlyNameHasColons(fields)
  {
    hide Split, Join;
    if OnlyNameHasColons(fields) {
      RecoversFields(fields);
    }
    PartsLackSeparator(Join(fields, ':'), ':');
  }

  /** A colon in the level of assurance is taken for one of the name, and the later fields shift. */
  lemma ColonMovesIntoName(id: string, sbi: string, name: string, a: string, b: string, c: string, d: string)
    requires forall s :: s in [id, sbi, name, a, b, c, d] ==> ':' !in s
    ensures ExtractFarmDetails(Some(Join([id, sbi, name, a + ":" + b, c, d], ':')))
            == Success([id, sbi, name + ":" + a, b, c, d])
  {
    hide Split, Join;
    var found := [id, sbi, name + ":" + a, b, c, d];
    var all := [id, sbi, name, a, b, c, d];
    assert all[0] == id && all[1] == sbi && all[2] == name && all[3] == a && all[4] == b && all[5] == c && all[6] == d;
    JoinOfTwo(a, b, ':');
    JoinOfTwo(name, a, ':');
    JoinRegroups([id, sbi, name], [a, b], [c, d], ':');
    JoinRegroups([id, sbi], [name, a], [b, c, d], ':');
    assert [id, sbi, name] + [a, b] + [c, d] == [id, sbi] + [name, a] + [b, c, d];
    assert [id, sbi, name, a + ":" + b, c, d] == [id, sbi, name] + [a + ":" + b] + [c, d];
    assert found == [id, sbi] + [name + ":" + a] + [b, c, d];
    RecoversFields(found);
  }

  /** So the fields of this relationship are not recovered. */
  lemma ColonOutsideNameIsLost()
    ensures ExtractFarmDetails(Some(Join(["1", "2", "Farm", "A:B", "C", "D"], ':')))
            != Success(["1", "2", "Farm", "A:B", "C", "D"])
  {
    var fields := ["1", "2", "Farm", "A:B", "C", "D"];
    ParserUndoesPrinter(fields);
    assert ':' in fields[3];
  }

  lemma JoinOfOne(s: string, sep: char)
    ensures Join([s], sep) == s
  {
  }

  // ----- the credentials -----

  datatype Credentials = Credentials(
    sbi: string, crn: string, name: string, organisationName: string, relationshipId: string)

  datatype User = User(
    contactId: Option<string>, firstName: Option<string>, lastName: Option<string>,
    relationships: seq<string>, currentRelationshipId: Option<string>)

  /** A value in a JavaScript template or under String(). */
  function AsText(value: Option<string>): string {
    if value.Some? then value.value else "undefined"
  }

  function CurrentRelationship(relationships: seq<string>, id: Option<string>): Option<string> {
    if relationships == [] then None
    else if id == Some(Split(relationships[0], ':')[0]) then Some(relationships[0])
    else CurrentRelationship(relationships[1..], id)
  }

  /** `relationships[n]` is the first with the id. */
  ghost predicate IsFirstWith(relationships: seq<string>, id: Option<string>, n: nat) {
    && n < |relationships| && id == Some(Split(relationships[n], ':')[0])
    && forall i :: 0 <= i < n ==> id != Some(Split(relationships[i], ':')[0])
  }

  /** The relationship found is the first listed one with the current id; none is found exactly when no listed one has
      it. */
  lemma {:induction false} CurrentRelationshipIsFirst(relationships: seq<string>, id: Option<string>)
    ensures match CurrentRelationship(relationships, id)
            case Some(r) => exists n: nat :: IsFirstWith(relationships, id, n) && r == relationships[n]
            case None => forall i :: 0 <= i < |relationships| ==> id != Some(Split(relationships[i], ':')[0])
  {
    hide Split;
    if relationships != [] {
      var rest := relationships[1..];
      CurrentRelationshipIsFirst(rest, id);
      if id == Some(Split(relationships[0], ':')[0]) {
        assert IsFirstWith(relationships, id, 0);
      } else if CurrentRelationship(rest, id).Some? {
        var n: nat :| IsFirstWith(rest, id, n) && CurrentRelationship(rest, id).value == rest[n];
        assert forall i :: 0 < i < |relationships| ==> relationships[i] == rest[i - 1];
        assert IsFirstWith(relationships, id, n + 1);
      } else {
        assert forall i :: 0 < i < |relationships| ==> relationships[i] == rest[i - 1];
      }
    }
  }

  /** A request whose credentials are completed with the fields of the current relationship. `profile` is the nested
      user data, if there is any, and `flat` the same data kept directly in the credentials. */
  class Request {
    const isAuthenticated: bool
    const profile: Option<User>
    const flat: User
    var credentials: Option<Credentials>

    function UserData(): User {
      if profile.Some? then profile.value else flat
    }

    /** `ok` is false when the parser throws. */
    method MapPayloadToProfile() returns (ok: bool)
      modifies this`credentials
      ensures !isAuthenticated ==> ok && credentials == old(credentials)
      ensures isAuthenticated ==>
                var details := ExtractFarmDetails(
                  CurrentRelationship(UserData().relationships, UserData().currentRelationshipId));
                ok == details.Success?
      ensures isAuthenticated && ok ==> credentials.Some? && Describes(credentials.value, UserData())
      ensures !ok ==> credentials == old(credentials)
    {
      if !isAuthenticated {
        return true;
      }
      var user := UserData();
      var relationship := CurrentRelationship(user.relationships, user.currentRelationshipId);
      var details := ExtractFarmDetails(relationship);
      if details.Failure? {
        return false;
      }
      CurrentRelationshipIsFirst(user.relationships, user.currentRelationshipId);
      var fields := details.value;
      FieldsDescribe(relationship.value);
      credentials := Some(Credentials(
        fields[1], AsText(user.contactId), AsText(user.firstName) + " " + AsText(user.lastName), fields[2], fields[0]));
      ok := true;
    }
  }

  /** The six fields print back to the relationship, begin with its id, and only the name has colons. */
  lemma FieldsDescribe(relationship: string)
    requires ExtractFarmDetails(Some(relationship)).Success?
    ensures var fields := ExtractFarmDetails(Some(relationship)).value;
            && |fields| == FIELDS && fields[0] == Split(relationship, ':')[0] && OnlyNameHasColons(fields)
            && Prints(fields[0], fields[1], fields[2], relationship)
  {
    hide Split, Join;
    var fields := ExtractFarmDetails(Some(relationship)).value;
    PrinterUndoesParser(relationship);
    PartsLackSeparator(relationship, ':');
    assert fields == [fields[0], fields[1], fields[2]] + fields[3..];
  }

  /** The relationship is these three fields and three more without colons. */
  ghost predicate Prints(id: string, sbi: string, name: string, relationship: string) {
    exists rest: seq<string> ::
      && |rest| == 3 && (forall i :: 0 <= i < 3 ==> ':' !in rest[i])
      && ':' !in id && ':' !in sbi && relationship == Join([id, sbi, name] + rest, ':')
  }

  /** The credentials carry the current id and print back, with three more fields, to the first relationship with that
      id; number and name are those of the user. */
  ghost predicate Describes(c: Credentials, user: User) {
    && Some(c.relationshipId) == user.currentRelationshipId
    && (user.contactId.Some? ==> c.crn == user.contactId.value) && (user.contactId.None? ==> c.crn == "undefined")
    && (user.firstName.Some? && user.lastName.Some? ==> c.name == user.firstName.value + " " + user.lastName.value)
    && exists n: nat ::
         IsFirstWith(user.relationships, user.currentRelationshipId, n)
         && Prints(c.relationshipId, c.sbi, c.organisationName, user.relationships[n])
  }
}
