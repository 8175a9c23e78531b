/**
 * The user controller of backend/src/controllers/userController.js: the filtered listing's
 * query builder, reading a user, and the profile update with its column renaming and SET-clause
 * placeholders. Every user object handed back has its password hash removed.
 */
module UserController {
  import opened Basics
  import opened Text
  import opened Store

  datatype UserError = AccessDenied | NoFieldsToUpdate | UserNotFound | StoreError(code: string)

  /** A request body: its keys in Object.keys order with their values. */
  type Fields = seq<(string, Value)>

  function Keys(f: Fields): set<string>
    decreases |f|
  {
    if f == [] then {} else {f[0].0} + Keys(f[1..])
  }

  /** Each key occurs once, as in a JavaScript object. */
  predicate DistinctKeys(f: Fields)
    decreases |f|
  {
    f == [] || (f[0].0 !in Keys(f[1..]) && DistinctKeys(f[1..]))
  }

  /** `obj[k]` on the object the pairs stand for. */
  function Lookup(f: Fields, k: string): Option<Value>
    decreases |f|
  {
    if f == [] then None else if f[0].0 == k then Some(f[0].1) else Lookup(f[1..], k)
  }

  // ---------------------------------------------------------------- password hash

  /** `const { password_hash, ...user } = row`. */
  function StripPasswordHash(row: UserRow): (user: UserRow)
    ensures "password_hash" !in user
    ensures forall c :: c in row && c != "password_hash" ==> c in user && user[c] == row[c]
    ensures forall c :: c in user ==> c in row
  {
    row - {"password_hash"}
  }

  /** getAll's `result.rows.map(...)`: the listed users, in order, each without its hash. */
  function ListedUsers(rows: seq<UserRow>): (users: seq<UserRow>)
    ensures |users| == |rows|
    ensures forall i :: 0 <= i < |users| ==> users[i] == StripPasswordHash(rows[i])
    ensures forall i :: 0 <= i < |users| ==> "password_hash" !in users[i]
  {
    seq(|rows|, i requires 0 <= i < |rows| => StripPasswordHash(rows[i]))
  }

  /** getById: 403 unless admin, hr or the user themself; 404 for no row; the row without its hash. */
  function GetById(caller: Caller, id: int, users: map<int, UserRow>): (r: Result<UserRow, UserError>)
    ensures r.Success? <==> AdminHrOrSelf(caller, id) && id in users
    ensures !AdminHrOrSelf(caller, id) ==> r == Failure(AccessDenied)
    ensures r.Success? ==> "password_hash" !in r.value && r.value == StripPasswordHash(users[id])
  {
    if !AdminHrOrSelf(caller, id) then Failure(AccessDenied)
    else if id !in users then Failure(UserNotFound)
    else Success(StripPasswordHash(users[id]))
  }

  // ---------------------------------------------------------------- getAll

  /** The list filters of the query string; "" leaves a filter out, as a falsy value does. */
  datatype ListFilters = ListFilters(search: string, department: string, status: string, role: string, page: int, limit: int)

  /** A condition of the WHERE clause, with the number of the placeholder it reads. */
  datatype Condition =
    | NameLike(p: nat)          // (first_name ILIKE $p OR last_name ILIKE $p OR email ILIKE $p OR employee_id ILIKE $p)
    | DepartmentIs(p: nat)
    | EmploymentStatusIs(p: nat)
    | RoleIs(p: nat)

  /** A bound parameter of the listing query. */
  datatype Param = Pattern(s: string) | Text(s: string) | Count(n: int)

  /** The placeholder a condition reads. */
  function PlaceholderOf(c: Condition): nat
  {
    match c
    case NameLike(p) => p
    case DepartmentIs(p) => p
    case EmploymentStatusIs(p) => p
    case RoleIs(p) => p
  }

  /** The parameter a condition must find at its placeholder. */
  function ExpectedParam(c: Condition, f: ListFilters): Param
  {
    match c
    case NameLike(_) => Pattern("%" + f.search + "%")
    case DepartmentIs(_) => Text(f.department)
    case EmploymentStatusIs(_) => Text(f.status)
    case RoleIs(_) => Text(f.role)
  }

  /** The filter value a condition tests. */
  function FilterOf(c: Condition, f: ListFilters): string
  {
    match c
    case NameLike(_) => f.search
    case DepartmentIs(_) => f.department
    case EmploymentStatusIs(_) => f.status
    case RoleIs(_) => f.role
  }

  function FilterCount(f: ListFilters): nat
  {
    (if f.search != "" then 1 else 0) + (if f.department != "" then 1 else 0)
    + (if f.status != "" then 1 else 0) + (if f.role != "" then 1 else 0)
  }

  /**
   * getAll's query builder. Each present filter adds a condition on placeholder paramIndex and
   * pushes its parameter; LIMIT and OFFSET then take paramIndex and paramIndex + 1. Every
   * placeholder reads the parameter meant for it, and LIMIT and OFFSET read the last two.
   * countParams is what getAll hands its count query: the filter parameters without those two.
   * That query's SQL stays `WHERE 1=1` with no placeholder, so whenever a filter is present it
   * has more parameters than placeholders, and the database refuses it.
   */
  method BuildListQuery(f: ListFilters) returns (conditions: seq<Condition>, limitAt: nat, offsetAt: nat, params: seq<Param>, countParams: seq<Param>)
    ensures |conditions| == FilterCount(f) && |params| == FilterCount(f) + 2
    ensures forall i :: 0 <= i < |conditions| ==> PlaceholderOf(conditions[i]) == i + 1
    ensures forall i :: 0 <= i < |conditions| ==> params[PlaceholderOf(conditions[i]) - 1] == ExpectedParam(conditions[i], f)
    ensures limitAt == |params| - 1 && offsetAt == |params|
    ensures params[limitAt - 1] == Count(f.limit) && params[offsetAt - 1] == Count((f.page - 1) * f.limit)
    ensures countParams == params[..|params| - 2]
    ensures forall i :: 0 <= i < |conditions| ==> FilterOf(conditions[i], f) != ""
    ensures f.search != "" <==> |conditions| > 0 && conditions[0].NameLike?
    ensures f.role != "" <==> |conditions| > 0 && conditions[|conditions| - 1].RoleIs?
  {
    var offset := (f.page - 1) * f.limit;
    conditions, params := [], [];
    var paramIndex := 1;
    conditions, params, paramIndex := AddFilter(conditions, params, paramIndex, NameLike(paramIndex), f);
    ghost var first := conditions;
    conditions, params, paramIndex := AddFilter(conditions, params, paramIndex, DepartmentIs(paramIndex), f);
    conditions, params, paramIndex := AddFilter(conditions, params, paramIndex, EmploymentStatusIs(paramIndex), f);
    conditions, params, paramIndex := AddFilter(conditions, params, paramIndex, RoleIs(paramIndex), f);
    assert |first| > 0 ==> conditions[0] == first[0];
    limitAt, offsetAt := paramIndex, paramIndex + 1;
    countParams := params;
    params := params + [Count(f.limit), Count(offset)];
    BuiltQuery(conditions, countParams, paramIndex, f, params);
  }

  /** What the finished builder promises follows from the conditions being built right. */
  lemma BuiltQuery(conditions: seq<Condition>, filterParams: seq<Param>, paramIndex: int, f: ListFilters, params: seq<Param>)
    requires Built(conditions, filterParams, paramIndex, f)
    requires |params| == |filterParams| + 2 && params[..|filterParams|] == filterParams
    ensures forall i :: 0 <= i < |conditions| ==> PlaceholderOf(conditions[i]) == i + 1
    ensures forall i :: 0 <= i < |conditions| ==> params[PlaceholderOf(conditions[i]) - 1] == ExpectedParam(conditions[i], f)
    ensures forall i :: 0 <= i < |conditions| ==> FilterOf(conditions[i], f) != ""
  {
    forall i | 0 <= i < |conditions|
      ensures params[PlaceholderOf(conditions[i]) - 1] == ExpectedParam(conditions[i], f)
    {
      assert params[i] == params[..|filterParams|][i];
    }
  }

  /** The conditions so far test present filters and each reads its own placeholder, which holds its parameter. */
  ghost predicate Built(conditions: seq<Condition>, params: seq<Param>, paramIndex: int, f: ListFilters)
  {
    && |params| == |conditions| && paramIndex == |conditions| + 1
    && forall i :: 0 <= i < |conditions| ==>
         PlaceholderOf(conditions[i]) == i + 1 && params[i] == ExpectedParam(conditions[i], f)
         && FilterOf(conditions[i], f) != ""
  }

  /**
   * One `if (filter)` block of the builder: when the filter the condition tests is present, push
   * the condition and its parameter and advance the index; otherwise change nothing.
   */
  method AddFilter(conditions: seq<Condition>, params: seq<Param>, paramIndex: int, c: Condition, f: ListFilters)
    returns (conditions': seq<Condition>, params': seq<Param>, paramIndex': int)
    requires Built(conditions, params, paramIndex, f)
    requires PlaceholderOf(c) == paramIndex
    ensures Built(conditions', params', paramIndex', f)
    ensures |conditions'| == |conditions| + (if FilterOf(c, f) != "" then 1 else 0)
    ensures FilterOf(c, f) != "" ==> conditions' == conditions + [c] && params' == params + [ExpectedParam(c, f)]
    ensures FilterOf(c, f) == "" ==> conditions' == conditions && params' == params
  {
    conditions', params', paramIndex' := conditions, params, paramIndex;
    if FilterOf(c, f) != "" {
      conditions' := conditions + [c];
      params' := params + [ExpectedParam(c, f)];
      paramIndex' := paramIndex + 1;
    }
  }

  // ---------------------------------------------------------------- update

  /** `delete updates.password; delete updates.password_hash`. */
  function RemoveSensitive(f: Fields): (r: Fields)
    ensures forall p :: p in r <==> p in f && p.0 != "password" && p.0 != "password_hash"
    ensures |r| <= |f|
    decreases |f|
  {
    if f == [] then []
    else
      var last := f[|f| - 1];
      assert forall p :: p in f <==> p in f[..|f| - 1] || p == last;
      RemoveSensitive(f[..|f| - 1]) + (if last.0 == "password" || last.0 == "password_hash" then [] else [last])
  }

  /** `columnMap[key] || key`: the column a body key writes. */
  function ColumnFor(key: string): string
  {
    if key == "firstName" then "first_name"
    else if key == "lastName" then "last_name"
    else if key == "middleName" then "middle_name"
    else if key == "employeeId" then "employee_id"
    else if key == "basicSalary" then "basic_salary"
    else if key == "employmentStatus" then "employment_status"
    else if key == "dateHired" then "date_hired"
    else if key == "dateOfBirth" then "date_of_birth"
    else if key == "contactNumber" then "contact_number"
    else if key == "profileImage" then "profile_image"
    else key
  }

  /** `obj[k] = v`: an existing key keeps its place and takes the value, a new key goes last. */
  function Assign(f: Fields, k: string, v: Value): Fields
    decreases |f|
  {
    if f == [] then [(k, v)]
    else if f[0].0 == k then [(k, v)] + f[1..]
    else [f[0]] + Assign(f[1..], k, v)
  }

  /** The forEach that fills dbUpdates, one body key after the other. */
  function MapColumnsSpec(f: Fields): Fields
    decreases |f|
  {
    if f == [] then []
    else
      var last := f[|f| - 1];
      Assign(MapColumnsSpec(f[..|f| - 1]), ColumnFor(last.0), last.1)
  }

  method MapColumns(updates: Fields) returns (dbUpdates: Fields)
    ensures dbUpdates == MapColumnsSpec(updates)
  {
    dbUpdates := [];
    var i := 0;
    while i < |updates|
      invariant 0 <= i <= |updates|
      invariant dbUpdates == MapColumnsSpec(updates[..i])
    {
      assert updates[..i + 1][..i] == updates[..i];
      dbUpdates := Assign(dbUpdates, ColumnFor(updates[i].0), updates[i].1);
      i := i + 1;
    }
    assert updates[..i] == updates;
  }

  lemma {:induction false} AssignMeaning(f: Fields, k: string, v: Value)
    requires DistinctKeys(f)
    ensures DistinctKeys(Assign(f, k, v))
    ensures Keys(Assign(f, k, v)) == Keys(f) + {k}
    ensures Lookup(Assign(f, k, v), k) == Some(v)
    ensures forall c :: c != k ==> Lookup(Assign(f, k, v), c) == Lookup(f, c)
    ensures k !in Keys(f) ==> Assign(f, k, v) == f + [(k, v)]
    decreases |f|
  {
    if f != [] {
      if f[0].0 == k {
        assert ([(k, v)] + f[1..])[1..] == f[1..];
      } else {
        AssignMeaning(f[1..], k, v);
        var r := [f[0]] + Assign(f[1..], k, v);
        assert r[1..] == Assign(f[1..], k, v);
        if k !in Keys(f) {
          assert f == [f[0]] + f[1..];
        }
      }
    }
  }

  /** The value a column ends up with: that of the last body key renamed to it. */
  function LastValueFor(f: Fields, column: string): Option<Value>
    decreases |f|
  {
    if f == [] then None
    else if ColumnFor(f[|f| - 1].0) == column then Some(f[|f| - 1].1)
    else LastValueFor(f[..|f| - 1], column)
  }

  /** The columns the body keys rename to. */
  function Columns(f: Fields): set<string>
    decreases |f|
  {
    if f == [] then {} else Columns(f[..|f| - 1]) + {ColumnFor(f[|f| - 1].0)}
  }

  /**
   * dbUpdates has one entry per column written, each column once, and each column holds the
   * value of the last body key that renames to it; it is empty exactly when the body is.
   */
  lemma {:induction false} MapColumnsMeaning(f: Fields)
    ensures DistinctKeys(MapColumnsSpec(f))
    ensures Keys(MapColumnsSpec(f)) == Columns(f)
    ensures forall c :: Lookup(MapColumnsSpec(f), c) == LastValueFor(f, c)
    ensures MapColumnsSpec(f) == [] <==> f == []
    decreases |f|
  {
    if f != [] {
      var init := f[..|f| - 1];
      var last := f[|f| - 1];
      MapColumnsMeaning(init);
      AssignMeaning(MapColumnsSpec(init), ColumnFor(last.0), last.1);
    }
  }

  /** No two keys of the body rename to the same column. */
  predicate NoCollisions(f: Fields)
  {
    forall i, j :: 0 <= i < j < |f| ==> ColumnFor(f[i].0) != ColumnFor(f[j].0)
  }

  function Renamed(f: Fields): (r: Fields)
    ensures |r| == |f|
  {
    seq(|f|, i requires 0 <= i < |f| => (ColumnFor(f[i].0), f[i].1))
  }

  lemma {:induction false} ColumnsOf(f: Fields)
    ensures forall c :: c in Columns(f) ==> exists i :: 0 <= i < |f| && ColumnFor(f[i].0) == c
    decreases |f|
  {
    if f != [] {
      ColumnsOf(f[..|f| - 1]);
    }
  }

  /** Without collisions the forEach only renames: same order, same values. */
  lemma {:induction false} MapColumnsRenames(f: Fields)
    requires NoCollisions(f)
    ensures MapColumnsSpec(f) == Renamed(f)
    decreases |f|
  {
    if f != [] {
      var init := f[..|f| - 1];
      var last := f[|f| - 1];
      assert NoCollisions(init);
      MapColumnsRenames(init);
      MapColumnsMeaning(init);
      LastColumnFresh(f);
      AssignMeaning(MapColumnsSpec(init), ColumnFor(last.0), last.1);
      RenamedSnoc(f);
    }
  }

  lemma LastColumnFresh(f: Fields)
    requires NoCollisions(f) && f != []
    ensures ColumnFor(f[|f| - 1].0) !in Columns(f[..|f| - 1])
  {
    ColumnsOf(f[..|f| - 1]);
  }

  lemma RenamedSnoc(f: Fields)
    requires f != []
    ensures Renamed(f) == Renamed(f[..|f| - 1]) + [(ColumnFor(f[|f| - 1].0), f[|f| - 1].1)]
  {
  }

  /** `${key} = $${index + 2}`: one assignment of the SET clause. */
  datatype Assignment = Assignment(column: string, placeholder: nat)

  function SetAssignments(db: Fields): seq<Assignment>
  {
    seq(|db|, k requires 0 <= k < |db| => Assignment(db[k].0, k + 2))
  }

  /** `[id, ...Object.values(dbUpdates)]`. */
  function UpdateValues(id: int, db: Fields): (values: seq<Value>)
  {
    [Num(id as real)] + seq(|db|, k requires 0 <= k < |db| => db[k].1)
  }

  /**
   * $1 is the user id and the k-th assignment's placeholder reads the k-th value of dbUpdates:
   * the placeholders are 2 .. |values|, each used once, so the statement binds every value.
   */
  lemma PlaceholdersBindValues(id: int, db: Fields)
    ensures var a, values := SetAssignments(db), UpdateValues(id, db);
      && |values| == |a| + 1 && values[0] == Num(id as real)
      && (forall k :: 0 <= k < |a| ==> 2 <= a[k].placeholder <= |values|)
      && (forall k :: 0 <= k < |a| ==> a[k].column == db[k].0 && values[a[k].placeholder - 1] == db[k].1)
      && (forall k, l :: 0 <= k < l < |a| ==> a[k].placeholder != a[l].placeholder)
  {
  }

  /** The SQL text of the SET clause, `col = $n` joined by ", ". */
  function SetClauseText(a: seq<Assignment>): string
  {
    if a == [] then ""
    else
      var item := a[0].column + " = $" + NatToString(a[0].placeholder);
      if |a| == 1 then item else item + ", " + SetClauseText(a[1..])
  }

  /** The row after `SET ..., updated_at = NOW()`. */
  function ApplyFields(row: UserRow, db: Fields): UserRow
    decreases |db|
  {
    if db == [] then row else ApplyFields(row[db[0].0 := db[0].1], db[1..])
  }

  // ---------------------------------------------------------------- identifiers in the SET clause

  function LowerChar(c: char): char
  {
    if 'A' <= c <= 'Z' then (c as int + 32) as char else c
  }

  /** The database folds an unquoted identifier to lower case (the ASCII letters A to Z). */
  function Downcase(s: string): (r: string)
    ensures |r| == |s|
    ensures forall i :: 0 <= i < |s| ==> r[i] == LowerChar(s[i])
  {
    seq(|s|, i requires 0 <= i < |s| => LowerChar(s[i]))
  }

  function DowncaseAll(names: set<string>): set<string>
  {
    set k | k in names :: Downcase(k)
  }

  /** dbUpdates as the database reads the SET clause: each key spliced in unquoted, so folded. */
  function Folded(db: Fields): Fields
    decreases |db|
  {
    if db == [] then [] else [(Downcase(db[0].0), db[0].1)] + Folded(db[1..])
  }

  lemma {:induction false} FoldedKeys(db: Fields)
    ensures Keys(Folded(db)) == DowncaseAll(Keys(db))
    decreases |db|
  {
    if db != [] {
      FoldedKeys(db[1..]);
      assert Folded(db)[1..] == Folded(db[1..]);
      assert Keys(db) == {db[0].0} + Keys(db[1..]);
    }
  }

  /** When no two folded columns clash, the folded column of a key holds that key's value. */
  lemma {:induction false} FoldedLookup(db: Fields, k: string)
    requires DistinctKeys(Folded(db)) && k in Keys(db)
    ensures Lookup(Folded(db), Downcase(k)) == Lookup(db, k)
    decreases |db|
  {
    assert Folded(db)[1..] == Folded(db[1..]);
    if db[0].0 != k {
      FoldedKeys(db[1..]);
      FoldedLookup(db[1..], k);
    }
  }

  /** When no two folded columns clash, no two keys fold to the same column. */
  lemma {:induction false} FoldedInjective(db: Fields)
    requires DistinctKeys(Folded(db))
    ensures forall k1, k2 :: k1 in Keys(db) && k2 in Keys(db) && Downcase(k1) == Downcase(k2) ==> k1 == k2
    decreases |db|
  {
    if db != [] {
      assert Folded(db)[1..] == Folded(db[1..]);
      FoldedKeys(db[1..]);
      FoldedInjective(db[1..]);
    }
  }

  /**
   * Neither a key columnMap renames nor the column it names folds to password_hash, so only a
   * key left as it is can be read as that column.
   */
  lemma ColumnForFolds(key: string)
    ensures ColumnFor(key) == key || (Downcase(ColumnFor(key)) != "password_hash" && Downcase(key) != "password_hash")
  {
    var c := ColumnFor(key);
    if c != key {
      assert Downcase(c)[0] == LowerChar(c[0]) && Downcase(c)[1] == LowerChar(c[1]);
      assert Downcase(key)[0] == LowerChar(key[0]) && Downcase(key)[1] == LowerChar(key[1]);
    }
  }

  /** The names the password filter drops are lower-case, so folding keeps them. */
  lemma SensitiveNamesFold()
    ensures Downcase("password") == "password" && Downcase("password_hash") == "password_hash"
  {
    var d := Downcase("password");
    assert d[0] == 'p' && d[1] == 'a' && d[2] == 's' && d[3] == 's' && d[4] == 'w' && d[5] == 'o' && d[6] == 'r' && d[7] == 'd';
    var e := Downcase("password_hash");
    assert e[0] == 'p' && e[1] == 'a' && e[2] == 's' && e[3] == 's' && e[4] == 'w' && e[5] == 'o' && e[6] == 'r';
    assert e[7] == 'd' && e[8] == '_' && e[9] == 'h' && e[10] == 'a' && e[11] == 's' && e[12] == 'h';
  }

  // ---------------------------------------------------------------- update

  /**
   * update once the password fields are dropped, with the table's columns and NOW() as
   * parameters: 403, then 400 for no fields, then the database's own errors on the folded SET
   * columns (one that does not exist, 42703; one assigned twice, updated_at included, 42601),
   * then 404, else the new row.
   */
  function UpdateKept(caller: Caller, id: int, kept: Fields, users: map<int, UserRow>, columns: set<string>, now: Value): Result<UserRow, UserError>
  {
    if !AdminHrOrSelf(caller, id) then Failure(AccessDenied)
    else
      var db := MapColumnsSpec(kept);
      var written := Folded(db);
      if db == [] then Failure(NoFieldsToUpdate)
      else if !(Keys(written) <= columns) then Failure(StoreError("42703"))
      else if "updated_at" in Keys(written) || !DistinctKeys(written) then Failure(StoreError("42601"))
      else if id !in users then Failure(UserNotFound)
      else Success(ApplyFields(users[id], written)["updated_at" := now])
  }

  /** update as the controller runs it: `delete updates.password; delete updates.password_hash` first. */
  function UpdateOutcome(caller: Caller, id: int, updates: Fields, users: map<int, UserRow>, columns: set<string>, now: Value): Result<UserRow, UserError>
  {
    UpdateKept(caller, id, RemoveSensitive(updates), users, columns, now)
  }

  method Update(db: Database, caller: Caller, id: int, updates: Fields, columns: set<string>, now: Value) returns (r: Result<UserRow, UserError>)
    modifies db`users
    ensures var outcome := UpdateOutcome(caller, id, updates, old(db.users), columns, now);
      && r == (if outcome.Success? then Success(StripPasswordHash(outcome.value)) else outcome)
      && db.users == (if outcome.Success? then old(db.users)[id := outcome.value] else old(db.users))
  {
    if !AdminHrOrSelf(caller, id) {
      return Failure(AccessDenied);
    }
    var kept := RemoveSensitive(updates);
    var dbUpdates := MapColumns(kept);
    var written := Folded(dbUpdates);
    if dbUpdates == [] {
      return Failure(NoFieldsToUpdate);
    }
    if !(Keys(written) <= columns) {
      return Failure(StoreError("42703"));
    }
    if "updated_at" in Keys(written) || !DistinctKeys(written) {
      return Failure(StoreError("42601"));
    }
    if id !in db.users {
      return Failure(UserNotFound);
    }
    var row := ApplyFields(db.users[id], written)["updated_at" := now];
    db.users := db.users[id := row];
    r := Success(StripPasswordHash(row));
  }

  lemma {:induction false} ApplyFieldsMeaning(row: UserRow, db: Fields)
    requires DistinctKeys(db)
    ensures forall c :: c in Keys(db) ==> c in ApplyFields(row, db) && Some(ApplyFields(row, db)[c]) == Lookup(db, c)
    ensures forall c :: c !in Keys(db) ==> (c in ApplyFields(row, db) <==> c in row)
    ensures forall c :: c !in Keys(db) && c in row ==> ApplyFields(row, db)[c] == row[c]
    decreases |db|
  {
    if db != [] {
      ApplyFieldsMeaning(row[db[0].0 := db[0].1], db[1..]);
    }
  }

  /**
   * A successful update writes updated_at and, for each column a body key renames to, the
   * lower-cased column with the value of the last key renamed to it; no two of those columns
   * fold together, and every other column of the row is kept as it was.
   */
  lemma UpdateMeaning(caller: Caller, id: int, kept: Fields, users: map<int, UserRow>, columns: set<string>, now: Value)
    requires UpdateKept(caller, id, kept, users, columns, now).Success?
    ensures AdminHrOrSelf(caller, id) && id in users
    ensures var row := UpdateKept(caller, id, kept, users, columns, now).value;
      && row["updated_at"] == now
      && (forall k1, k2 :: k1 in Columns(kept) && k2 in Columns(kept) && Downcase(k1) == Downcase(k2) ==> k1 == k2)
      && (forall k :: k in Columns(kept) ==>
            Downcase(k) != "updated_at" && Downcase(k) in row && Some(row[Downcase(k)]) == LastValueFor(kept, k))
      && (forall c :: c != "updated_at" && c !in DowncaseAll(Columns(kept)) ==> (c in row <==> c in users[id]))
      && (forall c :: c != "updated_at" && c !in DowncaseAll(Columns(kept)) && c in row ==> row[c] == users[id][c])
  {
    var db := MapColumnsSpec(kept);
    var written := Folded(db);
    MapColumnsMeaning(kept);
    FoldedKeys(db);
    FoldedInjective(db);
    ApplyFieldsMeaning(users[id], written);
    forall k | k in Columns(kept)
      ensures Lookup(written, Downcase(k)) == LastValueFor(kept, k)
    {
      FoldedLookup(db, k);
    }
  }

  /**
   * The password filter compares keys exactly, and the database folds the key it lets through:
   * any other spelling of password_hash escapes the filter and overwrites the stored hash, even
   * on one's own row.
   */
  lemma CaseVariantWritesHash(me: int, users: map<int, UserRow>, columns: set<string>, now: Value, key: string, h: Value)
    requires me in users && "password_hash" in columns
    requires Downcase(key) == "password_hash" && key != "password_hash"
    ensures var r := UpdateOutcome(Caller(me, Employee), me, [(key, h)], users, columns, now);
      r.Success? && "password_hash" in r.value && r.value["password_hash"] == h
  {
    var f: Fields := [(key, h)];
    ColumnForFolds(key);
    assert ColumnFor(key) == key;
    assert key != "password" by {
      assert |key| == 13;
    }
    SingleKeyUpdate(me, users, columns, now, key, h);
  }

  /**
   * A body of one key that the filter keeps and columnMap leaves as it is: the update succeeds
   * exactly when the folded key is a column other than updated_at, and then writes it.
   */
  lemma SingleKeyUpdate(me: int, users: map<int, UserRow>, columns: set<string>, now: Value, key: string, v: Value)
    requires me in users && Downcase(key) in columns && Downcase(key) != "updated_at"
    requires key != "password" && key != "password_hash" && ColumnFor(key) == key
    ensures var r := UpdateOutcome(Caller(me, Employee), me, [(key, v)], users, columns, now);
      r == Success(users[me][Downcase(key) := v]["updated_at" := now])
  {
    var f: Fields := [(key, v)];
    assert RemoveSensitive(f) == f by {
      assert f[..0] == [];
      assert RemoveSensitive(f[..0]) == [];
    }
    assert MapColumnsSpec(f) == f by {
      assert f[..0] == [];
    }
    var written := Folded(f);
    assert written == [(Downcase(key), v)] by {
      assert f[1..] == [];
      assert Folded(f[1..]) == [];
    }
    assert written[1..] == [];
    assert Keys(written) == {Downcase(key)};
    assert DistinctKeys(written);
    assert ApplyFields(users[me], written) == users[me][Downcase(key) := v];
  }

  lemma UpperCaseHashKey()
    ensures Downcase("PASSWORD_HASH") == "password_hash" && "PASSWORD_HASH" != "password_hash"
  {
    var d := Downcase("PASSWORD_HASH");
    assert d[0] == 'p' && d[1] == 'a' && d[2] == 's' && d[3] == 's' && d[4] == 'w' && d[5] == 'o' && d[6] == 'r';
    assert d[7] == 'd' && d[8] == '_' && d[9] == 'h' && d[10] == 'a' && d[11] == 's' && d[12] == 'h';
    assert "PASSWORD_HASH"[0] != "password_hash"[0];
  }

  /** The body {"PASSWORD_HASH": h} sent by an employee for their own row replaces the stored hash with h. */
  lemma UpperCaseKeyWritesHash(me: int, users: map<int, UserRow>, columns: set<string>, now: Value, h: Value)
    requires me in users && "password_hash" in columns
    ensures var r := UpdateOutcome(Caller(me, Employee), me, [("PASSWORD_HASH", h)], users, columns, now);
      r.Success? && "password_hash" in r.value && r.value["password_hash"] == h
  {
    UpperCaseHashKey();
    CaseVariantWritesHash(me, users, columns, now, "PASSWORD_HASH", h);
  }

  /** No body key renames to a column that folds to password_hash unless it folds to it itself. */
  lemma {:induction false} NoHashColumn(f: Fields)
    requires forall p :: p in f ==> Downcase(p.0) != "password_hash"
    ensures "password_hash" !in DowncaseAll(Columns(f))
    decreases |f|
  {
    if f != [] {
      var last := f[|f| - 1];
      assert last in f;
      assert forall p :: p in f[..|f| - 1] ==> p in f;
      NoHashColumn(f[..|f| - 1]);
      ColumnForFolds(last.0);
      assert Columns(f) == Columns(f[..|f| - 1]) + {ColumnFor(last.0)};
    }
  }

  /** The intended password filter: drop every key the database would read as password or password_hash. */
  function RemoveSensitiveCorrected(f: Fields): (r: Fields)
    ensures forall p :: p in r <==> p in f && Downcase(p.0) != "password" && Downcase(p.0) != "password_hash"
    decreases |f|
  {
    if f == [] then []
    else
      var last := f[|f| - 1];
      assert forall p :: p in f <==> p in f[..|f| - 1] || p == last;
      RemoveSensitiveCorrected(f[..|f| - 1])
      + (if Downcase(last.0) == "password" || Downcase(last.0) == "password_hash" then [] else [last])
  }

  /** update with the corrected password filter. */
  function UpdateOutcomeCorrected(caller: Caller, id: int, updates: Fields, users: map<int, UserRow>, columns: set<string>, now: Value): Result<UserRow, UserError>
  {
    UpdateKept(caller, id, RemoveSensitiveCorrected(updates), users, columns, now)
  }

  /** With the corrected filter an update never writes the stored password hash, and its answer never carries one. */
  lemma UpdateKeepsPasswordHash(caller: Caller, id: int, updates: Fields, users: map<int, UserRow>, columns: set<string>, now: Value)
    requires UpdateOutcomeCorrected(caller, id, updates, users, columns, now).Success?
    ensures id in users
    ensures var row := UpdateOutcomeCorrected(caller, id, updates, users, columns, now).value;
      && ("password_hash" in row <==> "password_hash" in users[id])
      && ("password_hash" in row ==> row["password_hash"] == users[id]["password_hash"])
      && "password_hash" !in StripPasswordHash(row)
  {
    NoHashColumn(RemoveSensitiveCorrected(updates));
    UpdateMeaning(caller, id, RemoveSensitiveCorrected(updates), users, columns, now);
  }

  /** On a body whose keys fold to password or password_hash only when spelled so, both filters agree. */
  lemma {:induction false} CorrectedFilterAgrees(f: Fields)
    requires forall p :: p in f ==> (Downcase(p.0) == "password" ==> p.0 == "password")
    requires forall p :: p in f ==> (Downcase(p.0) == "password_hash" ==> p.0 == "password_hash")
    ensures RemoveSensitiveCorrected(f) == RemoveSensitive(f)
    decreases |f|
  {
    if f != [] {
      var last := f[|f| - 1];
      assert last in f;
      assert forall p :: p in f[..|f| - 1] ==> p in f;
      CorrectedFilterAgrees(f[..|f| - 1]);
      SensitiveNamesFold();
    }
  }

  /** Only the password fields, or nothing at all, answers 400 and changes nothing. */
  lemma NothingToUpdate(caller: Caller, id: int, users: map<int, UserRow>, columns: set<string>, now: Value, secret: Value)
    requires AdminHrOrSelf(caller, id)
    ensures UpdateOutcome(caller, id, [], users, columns, now) == Failure(NoFieldsToUpdate)
    ensures UpdateOutcome(caller, id, [("password", secret), ("password_hash", secret)], users, columns, now) == Failure(NoFieldsToUpdate)
  {
    var f: Fields := [("password", secret), ("password_hash", secret)];
    MapColumnsMeaning(RemoveSensitive(f));
    assert RemoveSensitive(f) == [];
  }

  /**
   * The only check is admin, hr or self, and nothing restricts the fields: an employee may
   * set the role column of their own row.
   */
  lemma EmployeeMaySetOwnRole(me: int, users: map<int, UserRow>, columns: set<string>, now: Value)
    requires me in users && "role" in columns
    ensures var r := UpdateOutcome(Caller(me, Employee), me, [("role", Str("admin"))], users, columns, now);
      r.Success? && "role" in r.value && r.value["role"] == Str("admin")
  {
    assert Downcase("role") == "role" by {
      var d := Downcase("role");
      assert d[0] == 'r' && d[1] == 'o' && d[2] == 'l' && d[3] == 'e';
    }
    SingleKeyUpdate(me, users, columns, now, "role", Str("admin"));
  }

}
