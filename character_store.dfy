/** The character store of the sqlx example: building the filtered list query
    with its argument list, and the insert-or-update dispatch with the
    not-found rule for updates and deletes. */
module CharacterStore {
  import opened Text
  import opened Wrappers

  /** A character row; `Store` sets the id of a freshly inserted one. */
  class Character {
    var id: int
    var actorId: int
    var name: string

    constructor (id: int, actorId: int, name: string)
      ensures this.id == id && this.actorId == actorId && this.name == name
    {
      this.id := id;
      this.actorId := actorId;
      this.name := name;
    }
  }

  /** A row read back by the list query. */
  datatype CharacterRow = CharacterRow(id: int, actorId: int, name: string)

  datatype CharacterFilters = CharacterFilters(actorId: int, actorName: string, name: string, sceneNumber: int)

  /** A query argument, bound to one `?` placeholder. */
  datatype Arg = IntArg(i: int) | TextArg(s: string)

  const SelectCharacters := "SELECT c.id, " + "c.actor_id, " + "c.name FROM " + "characters_sqlx c"
  const JoinActors := "JOIN actors a ON a.id = c.actor_id"
  const JoinScenes := "JOIN scene_" + "characters_sqlx " + "sc ON sc." + "character_id = c.id"
  const WhereActorId := "c.actor_id = ?"
  const WhereActorName := "LOWER(a.name) LIKE ?"
  const WhereName := "LOWER(c.name) LIKE ?"
  const WhereScene := "sc.scene_id = ?"
  /** The separators `List` puts between the parts of the query. */
  const Space := " "
  const WhereKeyword := " WHERE "
  const AndSeparator := " AND "

  /** One filter in effect. */
  datatype Condition =
    | ActorIs(actorId: int)
    | ActorNameLike(pattern: string)
    | NameLike(pattern: string)
    | InScene(scene: int)

  /** A case-insensitive partial match pattern. */
  function LikePattern(toLower: string -> string, s: string): string
  {
    "%" + toLower(s) + "%"
  }

  /** The filters in effect, in clause order: the actor (by id, or else by
      name), the character name, the scene. */
  function Conditions(filters: Option<CharacterFilters>, toLower: string -> string): (cs: seq<Condition>)
    ensures |cs| <= 3
    ensures filters.None? ==> cs == []
  {
    if filters.None? then []
    else
      var f := filters.value;
      (if f.actorId != 0 then [ActorIs(f.actorId)]
       else if f.actorName != "" then [ActorNameLike(LikePattern(toLower, f.actorName))]
       else [])
      + (if f.name != "" then [NameLike(LikePattern(toLower, f.name))] else [])
      + (if f.sceneNumber != 0 then [InScene(f.sceneNumber)] else [])
  }

  function JoinOf(c: Condition): Option<string>
  {
    match c
    case ActorNameLike(_) => Some(JoinActors)
    case InScene(_) => Some(JoinScenes)
    case _ => None
  }

  function WhereOf(c: Condition): string
  {
    match c
    case ActorIs(_) => WhereActorId
    case ActorNameLike(_) => WhereActorName
    case NameLike(_) => WhereName
    case InScene(_) => WhereScene
  }

  function ArgOf(c: Condition): Arg
  {
    match c
    case ActorIs(id) => IntArg(id)
    case ActorNameLike(p) => TextArg(p)
    case NameLike(p) => TextArg(p)
    case InScene(s) => IntArg(s)
  }

  function Joins(cs: seq<Condition>): seq<string>
  {
    if cs == [] then []
    else (if JoinOf(cs[0]).Some? then [JoinOf(cs[0]).value] else []) + Joins(cs[1..])
  }

  function Wheres(cs: seq<Condition>): (r: seq<string>)
    ensures |r| == |cs|
    ensures forall i :: 0 <= i < |cs| ==> r[i] == WhereOf(cs[i])
  {
    if cs == [] then [] else [WhereOf(cs[0])] + Wheres(cs[1..])
  }

  function Args(cs: seq<Condition>): (r: seq<Arg>)
    ensures |r| == |cs|
    ensures forall i :: 0 <= i < |cs| ==> r[i] == ArgOf(cs[i])
  {
    if cs == [] then [] else [ArgOf(cs[0])] + Args(cs[1..])
  }

  /** The query text for a list of conditions: the joins, then the WHERE
      clause when there is a condition. */
  function QueryFor(cs: seq<Condition>): string
  {
    SelectCharacters
    + (if |Joins(cs)| > 0 then Space + Join(Joins(cs), Space) else "")
    + (if |cs| > 0 then WhereKeyword + Join(Wheres(cs), AndSeparator) else "")
  }

  /** The clause lists of `List`: the joins, the WHERE conditions and the
      arguments, appended filter by filter. */
  method FilterClauses(filters: Option<CharacterFilters>, toLower: string -> string)
    returns (joins: seq<string>, where: seq<string>, args: seq<Arg>)
    ensures var cs := Conditions(filters, toLower);
      joins == Joins(cs) && where == Wheres(cs) && args == Args(cs)
  {
    joins, where, args := [], [], [];
    if filters.None? {
      return;
    }
    var f := filters.value;
    ghost var cs: seq<Condition> := [];
    if f.actorId != 0 {
      where := where + [WhereActorId];
      args := args + [IntArg(f.actorId)];
      cs := [ActorIs(f.actorId)];
    } else if f.actorName != "" {
      joins := joins + [JoinActors];
      where := where + [WhereActorName];
      args := args + [TextArg("%" + toLower(f.actorName) + "%")];
      cs := [ActorNameLike(LikePattern(toLower, f.actorName))];
    }
    assert joins == Joins(cs) && where == Wheres(cs) && args == Args(cs);
    if f.name != "" {
      where := where + [WhereName];
      args := args + [TextArg("%" + toLower(f.name) + "%")];
      ClausesSnoc(cs, NameLike(LikePattern(toLower, f.name)));
      cs := cs + [NameLike(LikePattern(toLower, f.name))];
    }
    if f.sceneNumber != 0 {
      joins := joins + [JoinScenes];
      where := where + [WhereScene];
      args := args + [IntArg(f.sceneNumber)];
      ClausesSnoc(cs, InScene(f.sceneNumber));
      cs := cs + [InScene(f.sceneNumber)];
    }
    assert cs == Conditions(filters, toLower);
  }

  /** The query and argument construction of `List`. */
  method ListQuery(filters: Option<CharacterFilters>, toLower: string -> string)
    returns (query: string, args: seq<Arg>)
    ensures query == QueryFor(Conditions(filters, toLower))
    ensures args == Args(Conditions(filters, toLower))
  {
    var joins, where;
    joins, where, args := FilterClauses(filters, toLower);
    query := SelectCharacters;
    if |joins| > 0 {
      query := query + Space + Join(joins, Space);
    }
    if |where| > 0 {
      query := query + WhereKeyword + Join(where, AndSeparator);
    }
  }

  /** Adding a condition at the end adds its join, its clause and its
      argument at the end. */
  lemma ClausesSnoc(cs: seq<Condition>, c: Condition)
    ensures Joins(cs + [c]) == Joins(cs) + (if JoinOf(c).Some? then [JoinOf(c).value] else [])
    ensures Wheres(cs + [c]) == Wheres(cs) + [WhereOf(c)]
    ensures Args(cs + [c]) == Args(cs) + [ArgOf(c)]
  {
    JoinsConcat(cs, [c]);
    assert [c][1..] == [];
    WheresSnoc(cs, c);
    ArgsSnoc(cs, c);
  }

  lemma {:induction false} WheresSnoc(cs: seq<Condition>, c: Condition)
    ensures Wheres(cs + [c]) == Wheres(cs) + [WhereOf(c)]
  {
    if cs == [] {
      assert [c][1..] == [];
    } else {
      assert (cs + [c])[1..] == cs[1..] + [c];
      WheresSnoc(cs[1..], c);
    }
  }

  lemma {:induction false} ArgsSnoc(cs: seq<Condition>, c: Condition)
    ensures Args(cs + [c]) == Args(cs) + [ArgOf(c)]
  {
    if cs == [] {
      assert [c][1..] == [];
    } else {
      assert (cs + [c])[1..] == cs[1..] + [c];
      ArgsSnoc(cs[1..], c);
    }
  }

  // ---------------------------------------------------------------------
  // Properties of the query

  /** Without filters, or with every filter at its zero value, the query is
      the bare SELECT and there is no argument. */
  lemma NoFilterBareQuery(filters: Option<CharacterFilters>, toLower: string -> string)
    ensures Conditions(filters, toLower) == [] <==>
      filters.None? ||
      (filters.value.actorId == 0 && filters.value.actorName == "" &&
       filters.value.name == "" && filters.value.sceneNumber == 0)
    ensures Conditions(filters, toLower) == [] ==>
      QueryFor(Conditions(filters, toLower)) == SelectCharacters && Args(Conditions(filters, toLower)) == []
  {
  }

  /** A non-zero actor id wins: the actor name, and with it the actors join,
      play no part at all. */
  lemma ActorIdTakesPrecedence(f: CharacterFilters, otherName: string, toLower: string -> string)
    requires f.actorId != 0
    ensures Conditions(Some(f), toLower) == Conditions(Some(f.(actorName := otherName)), toLower)
    ensures Conditions(Some(f), toLower)[0] == ActorIs(f.actorId)
    ensures JoinActors !in Joins(Conditions(Some(f), toLower))
  {
    var cs := Conditions(Some(f), toLower);
    JoinsFollowFilters(f, toLower);
  }

  /** The joins are the actors join exactly when the actor is matched by
      name, then the scenes join exactly when a scene is given, in that
      order. */
  lemma JoinsFollowFilters(f: CharacterFilters, toLower: string -> string)
    ensures Joins(Conditions(Some(f), toLower)) ==
      (if f.actorId == 0 && f.actorName != "" then [JoinActors] else []) +
      (if f.sceneNumber != 0 then [JoinScenes] else [])
  {
    var a := if f.actorId != 0 then [ActorIs(f.actorId)]
             else if f.actorName != "" then [ActorNameLike(LikePattern(toLower, f.actorName))]
             else [];
    var n := if f.name != "" then [NameLike(LikePattern(toLower, f.name))] else [];
    var sc := if f.sceneNumber != 0 then [InScene(f.sceneNumber)] else [];
    assert Conditions(Some(f), toLower) == a + n + sc;
    JoinsConcat(a + n, sc);
    JoinsConcat(a, n);
  }

  lemma {:induction false} JoinsConcat(a: seq<Condition>, b: seq<Condition>)
    ensures Joins(a + b) == Joins(a) + Joins(b)
  {
    if a == [] {
      assert a + b == b;
    } else {
      assert (a + b)[1..] == a[1..] + b;
      JoinsConcat(a[1..], b);
    }
  }

  /** Every text argument is a lower-cased "%...%" pattern of the actor name
      or the character name, and each integer argument is the actor id or the
      scene number. */
  lemma ArgumentsComeFromFilters(f: CharacterFilters, toLower: string -> string, i: nat)
    requires i < |Args(Conditions(Some(f), toLower))|
    ensures var a := Args(Conditions(Some(f), toLower))[i];
      (a.TextArg? ==> a.s == LikePattern(toLower, f.actorName) || a.s == LikePattern(toLower, f.name)) &&
      (a.IntArg? ==> a.i == f.actorId || a.i == f.sceneNumber)
  {
    var cs := Conditions(Some(f), toLower);
    ArgsAt(cs, i);
  }

  lemma {:induction false} ArgsAt(cs: seq<Condition>, i: nat)
    requires i < |cs|
    ensures Args(cs)[i] == ArgOf(cs[i])
  {
    if i > 0 {
      ArgsAt(cs[1..], i - 1);
    }
  }

  /** Each WHERE condition holds exactly one placeholder, at its end; the
      join texts hold none. */
  lemma ClausePlaceholders(c: Condition)
    ensures Occurrences('?', WhereOf(c)) == 1
    ensures JoinOf(c).Some? ==> Occurrences('?', JoinOf(c).value) == 0
  {
    match c
    case ActorIs(_) =>
      assert WhereActorId == "c.actor_id = " + "?";
      EndsInPlaceholder("c.actor_id = ", WhereActorId);
    case ActorNameLike(_) =>
      assert WhereActorName == "LOWER(a.name) LIKE " + "?";
      EndsInPlaceholder("LOWER(a.name) LIKE ", WhereActorName);
      JoinActorsFree();
    case NameLike(_) =>
      assert WhereName == "LOWER(c.name) LIKE " + "?";
      EndsInPlaceholder("LOWER(c.name) LIKE ", WhereName);
    case InScene(_) =>
      assert WhereScene == "sc.scene_id = " + "?";
      EndsInPlaceholder("sc.scene_id = ", WhereScene);
      JoinScenesFree();
  }

  lemma JoinActorsFree()
    ensures Occurrences('?', JoinActors) == 0
  {
    assert '?' !in JoinActors;
    FreeOfPlaceholders(JoinActors);
  }

  lemma JoinScenesFree()
    ensures Occurrences('?', JoinScenes) == 0
  {
    JoinScenesNoMark();
    FreeOfPlaceholders(JoinScenes);
  }

  lemma JoinScenesNoMark()
    ensures '?' !in JoinScenes
  {
    assert '?' !in "JOIN scene_" && '?' !in "characters_sqlx ";
    assert '?' !in "sc ON sc." && '?' !in "character_id = c.id";
  }

  lemma SelectFree()
    ensures Occurrences('?', SelectCharacters) == 0
  {
    SelectNoMark();
    FreeOfPlaceholders(SelectCharacters);
  }

  lemma SelectNoMark()
    ensures '?' !in SelectCharacters
  {
    assert '?' !in "SELECT c.id, " && '?' !in "c.actor_id, ";
    assert '?' !in "c.name FROM " && '?' !in "characters_sqlx c";
  }

  lemma FreeOfPlaceholders(text: string)
    requires '?' !in text
    ensures Occurrences('?', text) == 0
  {
  }

  lemma EndsInPlaceholder(head: string, text: string)
    requires '?' !in head && text == head + "?"
    ensures Occurrences('?', text) == 1
  {
    OccurrencesConcat('?', head, "?");
    assert "?"[1..] == [];
  }

  lemma {:induction false} WheresPlaceholders(cs: seq<Condition>)
    ensures OccurrencesAll('?', Wheres(cs)) == |cs|
  {
    if cs != [] {
      ClausePlaceholders(cs[0]);
      WheresPlaceholders(cs[1..]);
      assert Wheres(cs)[1..] == Wheres(cs[1..]);
    }
  }

  lemma {:induction false} JoinsPlaceholders(cs: seq<Condition>)
    ensures OccurrencesAll('?', Joins(cs)) == 0
  {
    if cs != [] {
      ClausePlaceholders(cs[0]);
      JoinsPlaceholders(cs[1..]);
      var first := if JoinOf(cs[0]).Some? then [JoinOf(cs[0]).value] else [];
      OccurrencesAllConcat('?', first, Joins(cs[1..]));
      if first != [] {
        assert first[1..] == [];
      }
    }
  }

  /** The query has one placeholder per argument, so the arguments bind the
      placeholders one to one, in order. */
  lemma PlaceholdersMatchArgs(cs: seq<Condition>)
    ensures Occurrences('?', QueryFor(cs)) == |Args(cs)|
  {
    var joinPart := if |Joins(cs)| > 0 then Space + Join(Joins(cs), Space) else "";
    var wherePart := if |cs| > 0 then WhereKeyword + Join(Wheres(cs), AndSeparator) else "";
    assert QueryFor(cs) == SelectCharacters + joinPart + wherePart;
    OccurrencesConcat('?', SelectCharacters + joinPart, wherePart);
    OccurrencesConcat('?', SelectCharacters, joinPart);
    SelectFree();
    JoinPartPlaceholders(cs);
    WherePartPlaceholders(cs);
  }

  lemma JoinPartPlaceholders(cs: seq<Condition>)
    ensures Occurrences('?', if |Joins(cs)| > 0 then Space + Join(Joins(cs), Space) else "") == 0
  {
    if |Joins(cs)| > 0 {
      JoinsPlaceholders(cs);
      SeparatorsNoMark();
      OccurrencesJoin('?', Joins(cs), Space);
      FreeOfPlaceholders(Space);
      OccurrencesConcat('?', Space, Join(Joins(cs), Space));
    }
  }

  lemma WherePartPlaceholders(cs: seq<Condition>)
    ensures Occurrences('?', if |cs| > 0 then WhereKeyword + Join(Wheres(cs), AndSeparator) else "") == |cs|
  {
    if |cs| > 0 {
      WheresPlaceholders(cs);
      SeparatorsNoMark();
      OccurrencesJoin('?', Wheres(cs), AndSeparator);
      FreeOfPlaceholders(WhereKeyword);
      OccurrencesConcat('?', WhereKeyword, Join(Wheres(cs), AndSeparator));
    }
  }

  /** The separators hold no placeholder. */
  lemma SeparatorsNoMark()
    ensures '?' !in Space && '?' !in WhereKeyword && '?' !in AndSeparator
  {
  }

  // ---------------------------------------------------------------------
  // Storing, updating, deleting and listing

  datatype StoreError =
    | NotFound                                  // ErrNotFound
    | Wrapped(operation: string, cause: string) // fmt.Errorf("<operation>: %w", cause)

  /** What the database does with each statement: the ids an INSERT ...
      RETURNING id streams back (each row's scan may fail), the rows an UPDATE
      or a DELETE affects, and the rows a SELECT returns. */
  datatype Database = Database(
    insert: (int, string) -> Result<seq<Result<int, string>>, string>,
    update: (int, int, string) -> Result<int, string>,
    delete: int -> Result<int, string>,
    select: (string, seq<Arg>) -> Result<seq<CharacterRow>, string>)

  /** Scanning the returned ids into the character: each row overwrites the
      id, and the first failing scan stops with its error. */
  function ScanIds(rows: seq<Result<int, string>>, id: int): (r: (int, Option<StoreError>))
    ensures r.1.None? <==> forall i :: 0 <= i < |rows| ==> rows[i].Success?
    ensures r.1.None? && rows != [] ==> r.0 == rows[|rows| - 1].value
  {
    if rows == [] then (id, None)
    else if rows[0].Failure? then (id, Some(Wrapped("insert character", rows[0].error)))
    else ScanIds(rows[1..], rows[0].value)
  }

  /** The id the character ends with, and the error, after an insert. */
  function InsertOutcome(actorId: int, name: string, id: int, db: Database): (int, Option<StoreError>)
  {
    match db.insert(actorId, name)
    case Failure(e) => (id, Some(Wrapped("insert character", e)))
    case Success(rows) => ScanIds(rows, id)
  }

  /** The not-found rule: a statement that affected no row reports
      ErrNotFound; a failed statement reports its error. */
  function AffectedOutcome(operation: string, res: Result<int, string>): (err: Option<StoreError>)
    ensures err == Some(NotFound) <==> res == Success(0)
    ensures err == None <==> res.Success? && res.value != 0
  {
    match res
    case Failure(e) => Some(Wrapped(operation, e))
    case Success(rows) => if rows == 0 then Some(NotFound) else None
  }

  method Insert(c: Character, db: Database) returns (err: Option<StoreError>)
    modifies c
    ensures (c.id, err) == InsertOutcome(old(c.actorId), old(c.name), old(c.id), db)
    ensures c.actorId == old(c.actorId) && c.name == old(c.name)
  {
    var res := db.insert(c.actorId, c.name);
    if res.Failure? {
      return Some(Wrapped("insert character", res.error));
    }
    var rows := res.value;
    var i := 0;
    while i < |rows|
      invariant 0 <= i <= |rows|
      invariant c.actorId == old(c.actorId) && c.name == old(c.name)
      invariant ScanIds(rows[i..], c.id) == ScanIds(rows, old(c.id))
    {
      assert rows[i..][1..] == rows[i + 1..];
      if rows[i].Failure? {
        return Some(Wrapped("insert character", rows[i].error));
      }
      c.id := rows[i].value;
      i := i + 1;
    }
    err := None;
  }

  method Update(c: Character, db: Database) returns (err: Option<StoreError>)
    ensures err == AffectedOutcome("update character", db.update(c.id, c.actorId, c.name))
  {
    var res := db.update(c.id, c.actorId, c.name);
    if res.Failure? {
      return Some(Wrapped("update character", res.error));
    }
    var rows := res.value;
    if rows == 0 {
      return Some(NotFound);
    }
    err := None;
  }

  /** Store: insert when the id is 0, otherwise update. */
  method Store(c: Character, db: Database) returns (err: Option<StoreError>)
    modifies c
    ensures old(c.id) == 0 ==> (c.id, err) == InsertOutcome(old(c.actorId), old(c.name), 0, db)
    ensures old(c.id) != 0 ==> (c.id == old(c.id) &&
      err == AffectedOutcome("update character", db.update(old(c.id), old(c.actorId), old(c.name))))
    ensures c.actorId == old(c.actorId) && c.name == old(c.name)
  {
    if c.id == 0 {
      err := Insert(c, db);
      return;
    }
    err := Update(c, db);
  }

  method Delete(id: int, db: Database) returns (err: Option<StoreError>)
    ensures err == AffectedOutcome("delete character", db.delete(id))
  {
    var res := db.delete(id);
    if res.Failure? {
      return Some(Wrapped("delete character", res.error));
    }
    var rows := res.value;
    if rows == 0 {
      return Some(NotFound);
    }
    err := None;
  }

  /** List: run the built query with its arguments. */
  method List(filters: Option<CharacterFilters>, toLower: string -> string, db: Database)
    returns (characters: seq<CharacterRow>, err: Option<StoreError>)
    ensures var cs := Conditions(filters, toLower);
      match db.select(QueryFor(cs), Args(cs))
      case Failure(e) => characters == [] && err == Some(Wrapped("list characters", e))
      case Success(rows) => characters == rows && err == None
  {
    var query, args := ListQuery(filters, toLower);
    var res := db.select(query, args);
    if res.Failure? {
      return [], Some(Wrapped("list characters", res.error));
    }
    characters, err := res.value, None;
  }

  /** An insert that gets back its single new id leaves it in the character. */
  lemma InsertSetsReturnedId(actorId: int, name: string, id: int, db: Database, newId: int)
    requires db.insert(actorId, name) == Success([Success(newId)])
    ensures InsertOutcome(actorId, name, id, db) == (newId, None)
  {
    var rows: seq<Result<int, string>> := [Success(newId)];
    assert rows[1..] == [];
    assert ScanIds(rows, id) == ScanIds([], newId);
  }

  /** Without a scan error, the id ends as the last returned one (or stays as
      it was when nothing came back). */
  lemma {:induction false} ScanKeepsLastId(rows: seq<Result<int, string>>, id: int)
    requires forall i :: 0 <= i < |rows| ==> rows[i].Success?
    ensures ScanIds(rows, id) == (if rows == [] then id else rows[|rows| - 1].value, None)
  {
    if rows != [] {
      ScanKeepsLastId(rows[1..], rows[0].value);
    }
  }
}
