/**
 Versioned capability sets (backend/src/auth/capability_sets.rs and
 backend/src/services/capability_sets.rs) and the tokens checked against them
 (backend/src/auth/mod.rs). The digest behind a generated slug is a parameter.
*/
module CapabilitySets {
  import opened Common
  import opened Text

  /** A capability is the place of its name in the alphabetical order of the 22 names. */
  type Capability = n: nat | n < 22

  const CAPABILITY_SETS_READ: Capability := 0
  const CAPABILITY_SETS_WRITE: Capability := 1
  const CORRESPONDENTS_EDIT: Capability := 2
  const CORRESPONDENTS_READ: Capability := 3
  const CORRESPONDENTS_WRITE: Capability := 4
  const DOCUMENTS_EDIT: Capability := 5
  const DOCUMENTS_READ: Capability := 6
  const DOCUMENTS_UPLOAD: Capability := 7
  const DOCUMENTS_WRITE: Capability := 8
  const FOLDERS_EDIT: Capability := 9
  const FOLDERS_READ: Capability := 10
  const FOLDERS_WRITE: Capability := 11
  const PROFILE_READ: Capability := 12
  const PROFILE_WRITE: Capability := 13
  const TAGS_EDIT: Capability := 14
  const TAGS_READ: Capability := 15
  const TAGS_WRITE: Capability := 16
  const TENANTS_DELETE: Capability := 17
  const TENANTS_RESET: Capability := 18
  const TENANTS_WRITE: Capability := 19
  const WEBDAV_READ: Capability := 20
  const WEBDAV_WRITE: Capability := 21

  const USER_CAPABILITIES: seq<Capability> :=
    [CORRESPONDENTS_EDIT, CORRESPONDENTS_READ, CORRESPONDENTS_WRITE, DOCUMENTS_EDIT, DOCUMENTS_READ, DOCUMENTS_UPLOAD,
     DOCUMENTS_WRITE, FOLDERS_EDIT, FOLDERS_READ, FOLDERS_WRITE, PROFILE_READ, PROFILE_WRITE, TAGS_EDIT, TAGS_READ,
     TAGS_WRITE, WEBDAV_READ]

  const OWNER_CAPABILITIES: seq<Capability> :=
    USER_CAPABILITIES + [WEBDAV_WRITE, CAPABILITY_SETS_READ, CAPABILITY_SETS_WRITE, TENANTS_WRITE, TENANTS_RESET, TENANTS_DELETE]

  const READONLY_CAPABILITIES: seq<Capability> :=
    [CORRESPONDENTS_READ, DOCUMENTS_READ, FOLDERS_READ, TAGS_READ, WEBDAV_READ]

  const WEBDAV_CAPABILITIES: seq<Capability> := [WEBDAV_READ]

  // ---------- Ascending lists ----------

  predicate Ascending(s: seq<Capability>) {
    forall i, j :: 0 <= i < j < |s| ==> s[i] < s[j]
  }

  function Insert(c: Capability, s: seq<Capability>): seq<Capability> {
    if s == [] || c <= s[0] then [c] + s else [s[0]] + Insert(c, s[1..])
  }

  function Sort(s: seq<Capability>): seq<Capability> {
    if s == [] then [] else Insert(s[0], Sort(s[1..]))
  }

  /** Drops every element equal to the one before it. */
  function Dedup(s: seq<Capability>): seq<Capability> {
    if |s| < 2 then s
    else if s[0] == s[1] then Dedup(s[1..])
    else [s[0]] + Dedup(s[1..])
  }

  predicate NonDescending(s: seq<Capability>) {
    forall i, j :: 0 <= i < j < |s| ==> s[i] <= s[j]
  }

  lemma {:induction false} InsertSorts(c: Capability, s: seq<Capability>)
    requires NonDescending(s)
    ensures NonDescending(Insert(c, s)) && forall x :: x in Insert(c, s) <==> x == c || x in s
  {
    if s != [] && c > s[0] {
      InsertSorts(c, s[1..]);
      var tail := Insert(c, s[1..]);
      forall i | 0 <= i < |tail|
        ensures s[0] <= tail[i]
      {
        assert tail[i] in tail;
      }
    }
  }

  lemma {:induction false} SortSorts(s: seq<Capability>)
    ensures NonDescending(Sort(s)) && forall x :: x in Sort(s) <==> x in s
  {
    if s != [] {
      SortSorts(s[1..]);
      InsertSorts(s[0], Sort(s[1..]));
    }
  }

  /** A list without repetition sorts to an ascending one. */
  lemma {:induction false} SortAscends(s: seq<Capability>)
    requires NoDup(s)
    ensures Ascending(Sort(s)) && forall x :: x in Sort(s) <==> x in s
  {
    SortSorts(s);
    if s != [] {
      SortAscends(s[1..]);
      InsertAscends(s[0], Sort(s[1..]));
    }
  }

  lemma {:induction false} InsertAscends(c: Capability, s: seq<Capability>)
    requires Ascending(s) && c !in s
    ensures Ascending(Insert(c, s)) && forall x :: x in Insert(c, s) <==> x == c || x in s
  {
    if s != [] && c > s[0] {
      InsertAscends(c, s[1..]);
      var tail := Insert(c, s[1..]);
      forall i | 0 <= i < |tail|
        ensures s[0] < tail[i]
      {
        assert tail[i] in tail;
      }
    }
  }

  lemma {:induction false} DedupAscends(s: seq<Capability>)
    requires NonDescending(s)
    ensures Ascending(Dedup(s)) && forall x :: x in Dedup(s) <==> x in s
    ensures s != [] ==> Dedup(s) != [] && Dedup(s)[0] == s[0]
  {
    if |s| >= 2 {
      DedupAscends(s[1..]);
    }
  }

  lemma {:induction false} AscendingIsUnique(a: seq<Capability>, b: seq<Capability>)
    requires Ascending(a) && Ascending(b) && forall x :: x in a <==> x in b
    ensures a == b
  {
    if b != [] {
      assert b[0] in b;
    }
    if a != [] {
      assert a[0] in a && a[0] in b && b[0] in a;
      assert a[0] == b[0];
      forall x
        ensures x in a[1..] <==> x in b[1..]
      {
        assert x in a <==> x == a[0] || x in a[1..];
        assert x in b <==> x == b[0] || x in b[1..];
      }
      AscendingIsUnique(a[1..], b[1..]);
    }
  }

  datatype Error = BadRequest | Conflict | NotFound | Database

  function NormalizeCapabilities(capabilities: seq<Capability>): Result<seq<Capability>, Error> {
    if capabilities == [] then Err(BadRequest) else Ok(Dedup(Sort(capabilities)))
  }

  lemma NormalizedAscends(capabilities: seq<Capability>)
    requires capabilities != []
    ensures var normalized := NormalizeCapabilities(capabilities).value;
            normalized != [] && Ascending(normalized) && Elems(normalized) == Elems(capabilities)
  {
    SortSorts(capabilities);
    assert capabilities[0] in Sort(capabilities);
    DedupAscends(Sort(capabilities));
    assert forall x :: x in Elems(capabilities) <==> x in capabilities;
  }

  // ---------- Slugs ----------

  predicate IsSystemSlug(slug: string) {
    slug == "owner" || slug == "user" || slug == "readonly" || slug == "webdav"
  }

  function ComputeSlug(capabilities: seq<Capability>, digest: seq<Capability> -> string): string {
    if capabilities == OWNER_CAPABILITIES then "owner"
    else if capabilities == USER_CAPABILITIES then "user"
    else if capabilities == READONLY_CAPABILITIES then "readonly"
    else if capabilities == WEBDAV_CAPABILITIES then "webdav"
    else "caps-" + digest(capabilities)
  }

  predicate IsAsciiAlphanumeric(c: char) {
    'a' <= c <= 'z' || 'A' <= c <= 'Z' || '0' <= c <= '9'
  }

  function SlugChar(c: char): char {
    if IsWhitespace(c) then '-' else if 'A' <= c <= 'Z' then (c as int + 32) as char else c
  }

  function MapSlug(s: string): (r: string)
    ensures |r| == |s| && forall i :: 0 <= i < |s| ==> r[i] == SlugChar(s[i])
  {
    seq(|s|, i requires 0 <= i < |s| => SlugChar(s[i]))
  }

  function NormalizeSlug(raw: string): Result<string, Error> {
    match NormalizeIdentifier(raw, 64, c => IsAsciiAlphanumeric(c) || c == '-' || c == '_' || IsWhitespace(c))
    case Err(_) => Err(BadRequest)
    case Ok(base) => Ok(MapSlug(base))
  }

  method BuildSlug(raw: string) returns (r: Result<string, Error>)
    ensures r == NormalizeSlug(raw)
  {
    var checked := NormalizeIdentifier(raw, 64, c => IsAsciiAlphanumeric(c) || c == '-' || c == '_' || IsWhitespace(c));
    if checked.Err? {
      return Err(BadRequest);
    }
    var base, normalized := checked.value, "";
    for i := 0 to |base|
      invariant |normalized| == i && forall k :: 0 <= k < i ==> normalized[k] == SlugChar(base[k])
    {
      normalized := normalized + [if IsWhitespace(base[i]) then '-' else SlugChar(base[i])];
    }
    assert normalized == MapSlug(base);
    return Ok(normalized);
  }

  // ---------- The table ----------

  datatype CapSet = CapSet(tenant: TenantId, slug: string, version: nat, system: bool, capabilities: set<Capability>)

  type Sets = map<Id, CapSet>

  predicate SlugOwner(sets: Sets, tenant: TenantId, slug: string, x: Id) {
    x in sets && sets[x].tenant == tenant && sets[x].slug == slug
  }

  ghost predicate SlugTaken(sets: Sets, tenant: TenantId, slug: string) {
    exists x :: SlugOwner(sets, tenant, slug, x)
  }

  /** The rows of a list; a repeated capability breaks the primary key. */
  function Rows(capabilities: seq<Capability>): Result<set<Capability>, Error> {
    if capabilities == [] then Err(BadRequest)
    else if !NoDup(capabilities) then Err(Database)
    else Ok(Elems(capabilities))
  }

  ghost function CreateRecord(sets: Sets, tenant: TenantId, slug: string, capabilities: seq<Capability>, newId: Id): Result<Sets, Error> {
    match NormalizeCapabilities(capabilities)
    case Err(e) => Err(e)
    case Ok(normalized) =>
      if SlugTaken(sets, tenant, slug) then Err(Conflict)
      else if newId in sets then Err(Database)
      else
        match Rows(normalized)
        case Err(e) => Err(e)
        case Ok(rows) => Ok(sets[newId := CapSet(tenant, slug, 1, false, rows)])
  }

  ghost function Create(
    sets: Sets, tenant: TenantId, slugField: Option<string>, capabilities: seq<Capability>, newId: Id, digest: seq<Capability> -> string)
    : Result<Sets, Error>
  {
    match NormalizeCapabilities(capabilities)
    case Err(e) => Err(e)
    case Ok(normalized) =>
      var slug := if slugField.Some? then NormalizeSlug(slugField.value) else Ok(ComputeSlug(normalized, digest));
      match slug
      case Err(e) => Err(e)
      case Ok(text) => if IsSystemSlug(text) then Err(Conflict) else CreateRecord(sets, tenant, text, capabilities, newId)
  }

  /** Replaces the capabilities and raises the version. */
  function Refresh(sets: Sets, id: Id, capabilities: seq<Capability>): Result<Sets, Error>
    requires id in sets
  {
    match Rows(capabilities)
    case Err(e) => Err(e)
    case Ok(rows) => Ok(sets[id := sets[id].(capabilities := rows, version := sets[id].version + 1)])
  }

  ghost function Rename(sets: Sets, tenant: TenantId, id: Id, slugField: Option<string>): Result<Sets, Error>
    requires id in sets
  {
    if slugField.None? then Ok(sets)
    else
      match NormalizeSlug(slugField.value)
      case Err(e) => Err(e)
      case Ok(slug) =>
        if IsSystemSlug(slug) then Err(Conflict)
        else if exists x :: x != id && SlugOwner(sets, tenant, slug, x) then Err(Conflict)
        else Ok(sets[id := sets[id].(slug := slug)])
  }

  ghost function Update(
    sets: Sets, tenant: TenantId, id: Id, slugField: Option<string>, capabilitiesField: Option<seq<Capability>>): Result<Sets, Error>
  {
    if id !in sets || sets[id].tenant != tenant then Err(NotFound)
    else if sets[id].system then
      if slugField.Some? || capabilitiesField.Some? then Err(Conflict) else Ok(sets)
    else
      match Rename(sets, tenant, id, slugField)
      case Err(e) => Err(e)
      case Ok(renamed) =>
        if capabilitiesField.None? then Ok(renamed)
        else
          match NormalizeCapabilities(capabilitiesField.value)
          case Err(e) => Err(e)
          case Ok(normalized) => Refresh(renamed, id, normalized)
  }

  function Delete(sets: Sets, tenant: TenantId, id: Id, inUse: bool): Result<Sets, Error> {
    if id !in sets || sets[id].tenant != tenant then Err(NotFound)
    else if sets[id].system || inUse then Err(Conflict)
    else Ok(sets - {id})
  }

  /** The stored capabilities in the order they are loaded. */
  ghost predicate LoadsAs(capabilities: set<Capability>, list: seq<Capability>) {
    Ascending(list) && Elems(list) == capabilities
  }

  /** ensure_capability_set: used for the built-in lists, in the order they are written down. */
  ghost function Ensure(sets: Sets, tenant: TenantId, capabilities: seq<Capability>, newId: Id, digest: seq<Capability> -> string): Result<Sets, Error> {
    if capabilities == [] then Err(BadRequest)
    else
      var slug := ComputeSlug(capabilities, digest);
      if x :| SlugOwner(sets, tenant, slug, x) then
        if LoadsAs(sets[x].capabilities, capabilities) then Ok(sets) else Refresh(sets, x, capabilities)
      else if newId in sets then Err(Database)
      else
        match Rows(capabilities)
        case Err(e) => Err(e)
        case Ok(rows) => Ok(sets[newId := CapSet(tenant, slug, 1, IsSystemSlug(slug), rows)])
  }

  // ---------- Invariants ----------

  predicate SameSlug(sets: Sets, x: Id, y: Id)
    requires x in sets && y in sets
  {
    x != y && sets[x].tenant == sets[y].tenant && sets[x].slug == sets[y].slug
  }

  /** Slugs are unique per tenant, and exactly the reserved ones mark system sets. */
  ghost predicate Valid(sets: Sets) {
    && (forall x, y {:trigger SameSlug(sets, x, y)} :: x in sets && y in sets ==> !SameSlug(sets, x, y))
    && forall x :: x in sets ==> sets[x].system == IsSystemSlug(sets[x].slug)
  }

  datatype Op =
    | CreateOp(tenant: TenantId, slugField: Option<string>, capabilities: seq<Capability>, newId: Id)
    | UpdateOp(tenant: TenantId, id: Id, slugField: Option<string>, capabilitiesField: Option<seq<Capability>>)
    | DeleteOp(tenant: TenantId, id: Id, inUse: bool)
    | EnsureOp(tenant: TenantId, capabilities: seq<Capability>, newId: Id)

  ghost function Apply(sets: Sets, op: Op, digest: seq<Capability> -> string): Result<Sets, Error> {
    match op
    case CreateOp(tenant, slugField, capabilities, newId) => Create(sets, tenant, slugField, capabilities, newId, digest)
    case UpdateOp(tenant, id, slugField, capabilitiesField) => Update(sets, tenant, id, slugField, capabilitiesField)
    case DeleteOp(tenant, id, inUse) => Delete(sets, tenant, id, inUse)
    case EnsureOp(tenant, capabilities, newId) => Ensure(sets, tenant, capabilities, newId, digest)
  }

  ghost function Step(sets: Sets, op: Op, digest: seq<Capability> -> string): Sets {
    match Apply(sets, op, digest) case Ok(sets') => sets' case Err(_) => sets
  }

  lemma PutKeepsValid(sets: Sets, x: Id, row: CapSet)
    requires Valid(sets) && row.system == IsSystemSlug(row.slug)
    requires forall y :: SlugOwner(sets, row.tenant, row.slug, y) ==> y == x
    ensures Valid(sets[x := row])
  {
    var sets' := sets[x := row];
    forall y, z | y in sets' && z in sets'
      ensures !SameSlug(sets', y, z)
    {
      if y != x && z != x {
        assert !SameSlug(sets, y, z);
      } else if SameSlug(sets', y, z) {
        assert SlugOwner(sets, row.tenant, row.slug, if y == x then z else y);
      }
    }
  }

  lemma GeneratedSlugs(capabilities: seq<Capability>, digest: seq<Capability> -> string)
    ensures IsSystemSlug(ComputeSlug(capabilities, digest)) <==>
              capabilities == OWNER_CAPABILITIES || capabilities == USER_CAPABILITIES
              || capabilities == READONLY_CAPABILITIES || capabilities == WEBDAV_CAPABILITIES
  {
    var generated := "caps-" + digest(capabilities);
    assert generated[0] == 'c';
  }

  lemma UpdateKeepsValid(
    sets: Sets, sets': Sets, tenant: TenantId, id: Id, slugField: Option<string>, capabilitiesField: Option<seq<Capability>>)
    requires Valid(sets) && Update(sets, tenant, id, slugField, capabilitiesField) == Ok(sets')
    ensures Valid(sets') && sets'.Keys == sets.Keys
    ensures forall x :: x in sets ==> Follows(sets[x], sets'[x])
  {
    if !sets[id].system {
      var renamed := Rename(sets, tenant, id, slugField).value;
      if slugField.Some? {
        PutKeepsValid(sets, id, renamed[id]);
      }
      if capabilitiesField.Some? {
        forall y | SlugOwner(renamed, renamed[id].tenant, renamed[id].slug, y)
          ensures y == id
        {
          assert !SameSlug(renamed, id, y);
        }
        PutKeepsValid(renamed, id, sets'[id]);
      }
    }
  }

  /** The version of a row never falls, and while it stays the same so do the capabilities and the tenant. */
  predicate Follows(before: CapSet, after: CapSet) {
    && before.version <= after.version && before.tenant == after.tenant
    && (before.version == after.version ==> before.capabilities == after.capabilities)
  }

  lemma StepKeepsValid(sets: Sets, op: Op, digest: seq<Capability> -> string)
    requires Valid(sets)
    ensures Valid(Step(sets, op, digest))
    ensures forall x :: x in sets && x in Step(sets, op, digest) ==> Follows(sets[x], Step(sets, op, digest)[x])
    ensures forall x :: x in Step(sets, op, digest) && x !in sets ==> !op.UpdateOp? && !op.DeleteOp? && x == op.newId
  {
    var sets' := Step(sets, op, digest);
    if Apply(sets, op, digest).Ok? {
      match op
      case CreateOp(tenant, slugField, capabilities, newId) =>
        PutKeepsValid(sets, newId, sets'[newId]);
      case UpdateOp(tenant, id, slugField, capabilitiesField) =>
        UpdateKeepsValid(sets, sets', tenant, id, slugField, capabilitiesField);
      case DeleteOp(tenant, id, inUse) =>
        forall x, y | x in sets' && y in sets'
          ensures !SameSlug(sets', x, y)
        {
          assert !SameSlug(sets, x, y);
        }
      case EnsureOp(tenant, capabilities, newId) =>
        EnsureKeepsValid(sets, tenant, capabilities, newId, digest);
    }
  }

  lemma EnsureKeepsValid(sets: Sets, tenant: TenantId, capabilities: seq<Capability>, newId: Id, digest: seq<Capability> -> string)
    requires Valid(sets) && Ensure(sets, tenant, capabilities, newId, digest).Ok?
    ensures Valid(Ensure(sets, tenant, capabilities, newId, digest).value)
    ensures forall x :: x in sets ==>
              x in Ensure(sets, tenant, capabilities, newId, digest).value
              && Follows(sets[x], Ensure(sets, tenant, capabilities, newId, digest).value[x])
    ensures forall x :: x in Ensure(sets, tenant, capabilities, newId, digest).value && x !in sets ==> x == newId
  {
    var sets' := Ensure(sets, tenant, capabilities, newId, digest).value;
    var slug := ComputeSlug(capabilities, digest);
    if x: Id :| SlugOwner(sets, tenant, slug, x) {
      forall y | SlugOwner(sets, tenant, slug, y)
        ensures y == x
      {
        assert !SameSlug(sets, x, y);
      }
      if sets' != sets {
        PutKeepsValid(sets, x, sets'[x]);
      }
    } else {
      PutKeepsValid(sets, newId, sets'[newId]);
    }
  }

  // ---------- ensure_capability_set ----------

  /**
   Ensuring an existing set leaves the table alone exactly when the list is the
   stored one in loading order, or holds a capability twice, which is an error.
   Otherwise the list replaces the stored one under the next version.
   */
  lemma EnsureIsNoOpExactly(sets: Sets, tenant: TenantId, capabilities: seq<Capability>, newId: Id, digest: seq<Capability> -> string, x: Id)
    requires Valid(sets) && capabilities != []
    requires SlugOwner(sets, tenant, ComputeSlug(capabilities, digest), x)
    ensures Ensure(sets, tenant, capabilities, newId, digest).Ok? <==> NoDup(capabilities)
    ensures NoDup(capabilities) ==>
              var sets' := Ensure(sets, tenant, capabilities, newId, digest).value;
              && x in sets' && sets'[x].capabilities == Elems(capabilities)
              && (sets' == sets <==> LoadsAs(sets[x].capabilities, capabilities))
              && (sets' != sets ==> sets'[x].version == sets[x].version + 1)
  {
    forall y | SlugOwner(sets, tenant, ComputeSlug(capabilities, digest), y)
      ensures y == x
    {
      assert !SameSlug(sets, x, y);
    }
  }

  /** The owner list is not written in loading order, so ensuring it raises the version every time. */
  lemma EnsuringOwnerAlwaysRefreshes(sets: Sets, tenant: TenantId, newId: Id, digest: seq<Capability> -> string, x: Id)
    requires Valid(sets) && SlugOwner(sets, tenant, "owner", x)
    ensures Ensure(sets, tenant, OWNER_CAPABILITIES, newId, digest).Ok?
    ensures Ensure(sets, tenant, OWNER_CAPABILITIES, newId, digest).value[x].version == sets[x].version + 1
  {
    assert OWNER_CAPABILITIES[16] == WEBDAV_WRITE && OWNER_CAPABILITIES[17] == CAPABILITY_SETS_READ;
    assert !Ascending(OWNER_CAPABILITIES);
    EnsureIsNoOpExactly(sets, tenant, OWNER_CAPABILITIES, newId, digest, x);
  }

  // ---------- Tokens over whole runs ----------

  /** A token carries the id and version its set had at issue. */
  datatype Token = Token(set_: Id, version: nat)

  function Issue(sets: Sets, id: Id): Token
    requires id in sets
  {
    Token(id, sets[id].version)
  }

  /** The request check: the capabilities granted, when the versions agree. */
  function Check(sets: Sets, token: Token): Option<set<Capability>> {
    if token.set_ in sets && sets[token.set_].version == token.version then Some(sets[token.set_].capabilities) else None
  }

  /** No operation of the run draws an id that is or was in use. */
  ghost predicate FreshRun(sets: Sets, used: set<Id>, ops: seq<Op>, digest: seq<Capability> -> string)
    decreases |ops|
  {
    ops != [] ==>
      && (ops[0].CreateOp? || ops[0].EnsureOp? ==> ops[0].newId !in used)
      && FreshRun(Step(sets, ops[0], digest), used + Step(sets, ops[0], digest).Keys, ops[1..], digest)
  }

  ghost function Run(sets: Sets, ops: seq<Op>, digest: seq<Capability> -> string): Sets
    decreases |ops|
  {
    if ops == [] then sets else Run(Step(sets, ops[0], digest), ops[1..], digest)
  }

  lemma {:induction false} RunKeepsValid(sets: Sets, ops: seq<Op>, digest: seq<Capability> -> string)
    requires Valid(sets)
    ensures Valid(Run(sets, ops, digest))
    decreases |ops|
  {
    if ops != [] {
      StepKeepsValid(sets, ops[0], digest);
      RunKeepsValid(Step(sets, ops[0], digest), ops[1..], digest);
    }
  }

  lemma {:induction false} RowFollows(sets: Sets, used: set<Id>, ops: seq<Op>, digest: seq<Capability> -> string, id: Id)
    requires Valid(sets) && sets.Keys <= used && FreshRun(sets, used, ops, digest) && id in used
    ensures id in Run(sets, ops, digest) ==> id in sets && Follows(sets[id], Run(sets, ops, digest)[id])
    decreases |ops|
  {
    if ops != [] {
      StepKeepsValid(sets, ops[0], digest);
      var sets' := Step(sets, ops[0], digest);
      RowFollows(sets', used + sets'.Keys, ops[1..], digest, id);
    }
  }

  /**
   Whatever operations follow its issue, a token that passes the version check
   is judged against exactly the capabilities its set had at issue.
   */
  lemma PassingTokenIsCurrent(sets: Sets, used: set<Id>, ops: seq<Op>, digest: seq<Capability> -> string, id: Id)
    requires Valid(sets) && sets.Keys <= used && FreshRun(sets, used, ops, digest) && id in sets
    ensures Check(sets, Issue(sets, id)) == Some(sets[id].capabilities)
    ensures Check(Run(sets, ops, digest), Issue(sets, id)).Some? ==>
              Check(Run(sets, ops, digest), Issue(sets, id)) == Some(sets[id].capabilities)
  {
    RowFollows(sets, used, ops, digest, id);
  }

  /** Every change of a set's capabilities through the service rejects all tokens issued for it before. */
  lemma RewriteRejectsTokens(
    sets: Sets, tenant: TenantId, id: Id, slugField: Option<string>, capabilities: seq<Capability>, token: Token)
    requires Valid(sets) && id in sets && token.set_ == id && token.version <= sets[id].version
    requires Update(sets, tenant, id, slugField, Some(capabilities)).Ok?
    ensures var sets' := Update(sets, tenant, id, slugField, Some(capabilities)).value;
            Check(sets', token).None? && sets'[id].capabilities == Elems(capabilities)
  {
    NormalizedAscends(capabilities);
  }

  /** The slug of the request, when it has one, can be taken by the set. */
  ghost predicate SlugFree(sets: Sets, tenant: TenantId, id: Id, slugField: Option<string>) {
    slugField.Some? ==>
      && NormalizeSlug(slugField.value).Ok?
      && !IsSystemSlug(NormalizeSlug(slugField.value).value)
      && forall x :: SlugOwner(sets, tenant, NormalizeSlug(slugField.value).value, x) ==> x == id
  }

  /**
   The operation writes the capabilities of the set anew: a valid update that
   names capabilities, or an ensure whose list is not the stored one as loaded.
   */
  ghost predicate Rewrites(sets: Sets, op: Op, id: Id, digest: seq<Capability> -> string)
    requires id in sets
  {
    match op
    case UpdateOp(tenant, x, slugField, capabilitiesField) =>
      x == id && sets[id].tenant == tenant && !sets[id].system
      && capabilitiesField.Some? && capabilitiesField.value != [] && SlugFree(sets, tenant, id, slugField)
    case EnsureOp(tenant, capabilities, _) =>
      capabilities != [] && NoDup(capabilities) && SlugOwner(sets, tenant, ComputeSlug(capabilities, digest), id)
      && !LoadsAs(sets[id].capabilities, capabilities)
    case _ => false
  }

  /** The operation removes the set. */
  predicate Removes(sets: Sets, op: Op, id: Id)
    requires id in sets
  {
    op.DeleteOp? && op.id == id && op.tenant == sets[id].tenant && !sets[id].system && !op.inUse
  }

  lemma UpdateRewritesExactly(
    sets: Sets, tenant: TenantId, x: Id, slugField: Option<string>, capabilitiesField: Option<seq<Capability>>, id: Id,
    digest: seq<Capability> -> string)
    requires Valid(sets) && id in sets
    ensures var op := UpdateOp(tenant, x, slugField, capabilitiesField);
            id in Step(sets, op, digest)
            && (Step(sets, op, digest)[id].version != sets[id].version <==> Rewrites(sets, op, id, digest))
  {
    if capabilitiesField.Some? && capabilitiesField.value != [] {
      NormalizedAscends(capabilitiesField.value);
    }
  }

  lemma EnsureRewritesExactly(
    sets: Sets, tenant: TenantId, capabilities: seq<Capability>, newId: Id, id: Id, digest: seq<Capability> -> string)
    requires Valid(sets) && id in sets
    ensures var op := EnsureOp(tenant, capabilities, newId);
            id in Step(sets, op, digest)
            && (Step(sets, op, digest)[id].version != sets[id].version <==> Rewrites(sets, op, id, digest))
  {
    if x: Id :| SlugOwner(sets, tenant, ComputeSlug(capabilities, digest), x) {
      if capabilities != [] {
        EnsureIsNoOpExactly(sets, tenant, capabilities, newId, digest, x);
      }
      forall y | SlugOwner(sets, tenant, ComputeSlug(capabilities, digest), y)
        ensures y == x
      {
        assert !SameSlug(sets, x, y);
      }
    }
  }

  /** One operation makes a token that passes now fail if and only if it rewrites or removes the token's set. */
  lemma TokenRejectedExactly(sets: Sets, op: Op, id: Id, digest: seq<Capability> -> string)
    requires Valid(sets) && id in sets
    ensures Check(Step(sets, op, digest), Issue(sets, id)).None? <==> Rewrites(sets, op, id, digest) || Removes(sets, op, id)
  {
    match op
    case UpdateOp(tenant, x, slugField, capabilitiesField) =>
      UpdateRewritesExactly(sets, tenant, x, slugField, capabilitiesField, id, digest);
    case EnsureOp(tenant, capabilities, newId) =>
      EnsureRewritesExactly(sets, tenant, capabilities, newId, id, digest);
    case _ =>
  }

  /** A rewrite rejects every token issued for the set before, however old, and so does whatever comes after it. */
  lemma RewriteRejectsForEver(
    sets: Sets, used: set<Id>, op: Op, ops: seq<Op>, id: Id, token: Token, digest: seq<Capability> -> string)
    requires Valid(sets) && id in sets && token.set_ == id && token.version <= sets[id].version
    requires Rewrites(sets, op, id, digest)
    requires var sets' := Step(sets, op, digest);
             sets'.Keys <= used && FreshRun(sets', used, ops, digest)
    ensures Check(Run(Step(sets, op, digest), ops, digest), token).None?
  {
    TokenRejectedExactly(sets, op, id, digest);
    StepKeepsValid(sets, op, digest);
    var sets' := Step(sets, op, digest);
    assert id in sets' by {
      if op.UpdateOp? {
        UpdateRewritesExactly(sets, op.tenant, op.id, op.slugField, op.capabilitiesField, id, digest);
      } else {
        EnsureRewritesExactly(sets, op.tenant, op.capabilities, op.newId, id, digest);
      }
    }
    RowFollows(sets', used, ops, digest, id);
  }

  // ---------- What an accepted request leaves ----------

  /** Each built-in list has its own slug. */
  lemma BuiltInSlugs(digest: seq<Capability> -> string)
    ensures ComputeSlug(OWNER_CAPABILITIES, digest) == "owner" && ComputeSlug(USER_CAPABILITIES, digest) == "user"
    ensures ComputeSlug(READONLY_CAPABILITIES, digest) == "readonly" && ComputeSlug(WEBDAV_CAPABILITIES, digest) == "webdav"
  {
    assert |OWNER_CAPABILITIES| == 22 && |USER_CAPABILITIES| == 16 && |READONLY_CAPABILITIES| == 5 && |WEBDAV_CAPABILITIES| == 1;
  }

  predicate IsSlugChar(c: char) {
    'a' <= c <= 'z' || '0' <= c <= '9' || c == '-' || c == '_'
  }

  lemma {:induction false} MappedLength(s: string)
    ensures ByteLen(MapSlug(s)) <= ByteLen(s)
  {
    if s != "" {
      assert MapSlug(s)[1..] == MapSlug(s[1..]);
      MappedLength(s[1..]);
    }
  }

  /** A normal slug is lower case without white space, and its own normal form. */
  lemma SlugIsClean(raw: string)
    requires NormalizeSlug(raw).Ok?
    ensures var slug := NormalizeSlug(raw).value;
            && slug != "" && (forall c :: c in slug ==> IsSlugChar(c)) && ByteLen(slug) <= 64
            && |slug| == |Trim(raw)| && NormalizeSlug(slug) == Ok(slug)
    ensures var slug, base := NormalizeSlug(raw).value, Trim(raw);
            forall i :: 0 <= i < |slug| ==>
              && (IsWhitespace(base[i]) ==> slug[i] == '-')
              && ('A' <= base[i] <= 'Z' ==> 'a' <= slug[i] <= 'z' && slug[i] - 'a' == base[i] - 'A')
              && (!IsWhitespace(base[i]) && !('A' <= base[i] <= 'Z') ==> slug[i] == base[i])
  {
    var base, slug := Trim(raw), NormalizeSlug(raw).value;
    MappedLength(base);
    forall i | 0 <= i < |slug|
      ensures IsSlugChar(slug[i]) && SlugChar(slug[i]) == slug[i] && !IsWhitespace(slug[i])
    {
      assert base[i] in base && slug[i] == SlugChar(base[i]);
    }
    TrimOfTrimmed(slug);
    assert MapSlug(slug) == slug;
  }

  /** The slug a new set gets: the one asked for in normal form, or that of its capabilities. */
  predicate IsRequestedSlug(slugField: Option<string>, normalized: seq<Capability>, digest: seq<Capability> -> string, slug: string) {
    match slugField
    case Some(raw) => NormalizeSlug(raw) == Ok(slug)
    case None => slug == ComputeSlug(normalized, digest)
  }

  /**
   A set is created exactly from some capabilities under a slug that is valid,
   not reserved and free, and then holds exactly these capabilities.
   */
  lemma CreatedExactly(
    sets: Sets, tenant: TenantId, slugField: Option<string>, capabilities: seq<Capability>, newId: Id, digest: seq<Capability> -> string,
    normalized: seq<Capability>)
    requires Ascending(normalized) && Elems(normalized) == Elems(capabilities)
    ensures Create(sets, tenant, slugField, capabilities, newId, digest).Ok? <==>
              && capabilities != [] && newId !in sets
              && exists slug :: IsRequestedSlug(slugField, normalized, digest, slug) && !IsSystemSlug(slug) && !SlugTaken(sets, tenant, slug)
    ensures Create(sets, tenant, slugField, capabilities, newId, digest).Ok? ==>
              var sets' := Create(sets, tenant, slugField, capabilities, newId, digest).value;
              && sets' - {newId} == sets && newId in sets'
              && sets'[newId].tenant == tenant && sets'[newId].version == 1 && !sets'[newId].system
              && sets'[newId].capabilities == Elems(capabilities) && IsRequestedSlug(slugField, normalized, digest, sets'[newId].slug)
  {
    if capabilities != [] {
      var list := NormalizeCapabilities(capabilities).value;
      NormalizedAscends(capabilities);
      assert forall c :: c in list <==> c in Elems(list);
      assert forall c :: c in normalized <==> c in Elems(normalized);
      AscendingIsUnique(list, normalized);
      var slug := if slugField.Some? then NormalizeSlug(slugField.value) else Ok(ComputeSlug(list, digest));
      assert forall text :: IsRequestedSlug(slugField, normalized, digest, text) <==> slug == Ok(text);
    }
  }

  /**
   An update changes exactly what it names: the slug to the one asked for, the
   capabilities to those asked for under the next version. A system set only
   accepts an update that names nothing.
   */
  lemma UpdatedExactly(sets: Sets, tenant: TenantId, id: Id, slugField: Option<string>, capabilitiesField: Option<seq<Capability>>)
    ensures Update(sets, tenant, id, slugField, capabilitiesField).Ok? <==>
              && id in sets && sets[id].tenant == tenant
              && (sets[id].system ==> slugField.None? && capabilitiesField.None?)
              && SlugFree(sets, tenant, id, slugField) && capabilitiesField != Some([])
    ensures Update(sets, tenant, id, slugField, capabilitiesField).Ok? ==>
              var sets' := Update(sets, tenant, id, slugField, capabilitiesField).value;
              && sets' - {id} == sets - {id} && id in sets'
              && sets'[id].tenant == tenant && sets'[id].system == sets[id].system
              && (if slugField.Some? then NormalizeSlug(slugField.value) == Ok(sets'[id].slug) else sets'[id].slug == sets[id].slug)
              && sets'[id].capabilities == (if capabilitiesField.Some? then Elems(capabilitiesField.value) else sets[id].capabilities)
              && sets'[id].version == sets[id].version + if capabilitiesField.Some? then 1 else 0
  {
    if capabilitiesField.Some? && capabilitiesField.value != [] {
      NormalizedAscends(capabilitiesField.value);
    }
  }

  /** Ensuring a list without a set yet creates one with exactly this list, a system set exactly for a reserved slug. */
  lemma EnsuredNew(sets: Sets, tenant: TenantId, capabilities: seq<Capability>, newId: Id, digest: seq<Capability> -> string)
    requires !SlugTaken(sets, tenant, ComputeSlug(capabilities, digest))
    ensures Ensure(sets, tenant, capabilities, newId, digest).Ok? <==> capabilities != [] && NoDup(capabilities) && newId !in sets
    ensures Ensure(sets, tenant, capabilities, newId, digest).Ok? ==>
              Ensure(sets, tenant, capabilities, newId, digest).value ==
                sets[newId := CapSet(tenant, ComputeSlug(capabilities, digest), 1, IsSystemSlug(ComputeSlug(capabilities, digest)), Elems(capabilities))]
  {
  }

  // ---------- The services ----------

  /** The method answered as the table function did, and changed the table only on success. */
  predicate Answer<T>(spec: Result<Sets, Error>, before: Sets, after: Sets, r: Result<T, Error>) {
    match spec
    case Ok(sets) => after == sets && r.Ok?
    case Err(e) => after == before && r.Err? && r.error == e
  }

  /** The columns of a set's own row. */
  datatype Record = Record(id: Id, tenant: TenantId, slug: string, version: nat, system: bool)

  function RecordOf(sets: Sets, id: Id): Record
    requires id in sets
  {
    Record(id, sets[id].tenant, sets[id].slug, sets[id].version, sets[id].system)
  }

  class CapabilityTable {
    var sets: Sets

    constructor ()
      ensures sets == map[]
    {
      sets := map[];
    }

    /** load_capabilities_for_set: the rows, sorted. */
    method LoadCapabilities(id: Id) returns (list: seq<Capability>)
      requires id in sets
      ensures LoadsAs(sets[id].capabilities, list)
    {
      var rest, rows := sets[id].capabilities, [];
      while rest != {}
        invariant NoDup(rows) && forall c :: c in rows ==> c !in rest
        invariant forall c :: c in sets[id].capabilities <==> c in rest || c in rows
        decreases rest
      {
        var c :| c in rest;
        rest := rest - {c};
        rows := rows + [c];
      }
      list := Sort(rows);
      SortAscends(rows);
    }

    method PersistAndBump(id: Id, capabilities: seq<Capability>) returns (r: Result<(), Error>)
      requires id in sets
      modifies this
      ensures Answer(Refresh(old(sets), id, capabilities), old(sets), sets, r)
    {
      if capabilities == [] {
        return Err(BadRequest);
      }
      if exists i, j :: 0 <= i < j < |capabilities| && capabilities[i] == capabilities[j] {
        return Err(Database);
      }
      sets := sets[id := sets[id].(capabilities := Elems(capabilities), version := sets[id].version + 1)];
      return Ok(());
    }

    method CreateSet(tenant: TenantId, slugField: Option<string>, capabilities: seq<Capability>, newId: Id, digest: seq<Capability> -> string)
      returns (r: Result<(), Error>)
      modifies this
      ensures Answer(Create(old(sets), tenant, slugField, capabilities, newId, digest), old(sets), sets, r)
    {
      var normalized := NormalizeCapabilities(capabilities);
      if normalized.Err? {
        return Err(normalized.error);
      }
      NormalizedAscends(capabilities);
      var slug: Result<string, Error>;
      if slugField.Some? {
        slug := BuildSlug(slugField.value);
      } else {
        slug := Ok(ComputeSlug(normalized.value, digest));
      }
      if slug.Err? {
        return Err(slug.error);
      }
      if IsSystemSlug(slug.value) {
        return Err(Conflict);
      }
      if exists x :: x in sets && SlugOwner(sets, tenant, slug.value, x) {
        return Err(Conflict);
      }
      assert !SlugTaken(sets, tenant, slug.value);
      if newId in sets {
        return Err(Database);
      }
      sets := sets[newId := CapSet(tenant, slug.value, 1, false, Elems(normalized.value))];
      return Ok(());
    }

    method UpdateSet(tenant: TenantId, id: Id, slugField: Option<string>, capabilitiesField: Option<seq<Capability>>)
      returns (r: Result<(), Error>)
      modifies this
      ensures Answer(Update(old(sets), tenant, id, slugField, capabilitiesField), old(sets), sets, r)
    {
      if id !in sets || sets[id].tenant != tenant {
        return Err(NotFound);
      }
      if sets[id].system {
        return if slugField.Some? || capabilitiesField.Some? then Err(Conflict) else Ok(());
      }
      var before := sets;
      if slugField.Some? {
        var slug := BuildSlug(slugField.value);
        if slug.Err? {
          return Err(slug.error);
        }
        if IsSystemSlug(slug.value) {
          return Err(Conflict);
        }
        if exists x :: x in sets && x != id && SlugOwner(sets, tenant, slug.value, x) {
          return Err(Conflict);
        }
        sets := sets[id := sets[id].(slug := slug.value)];
      }
      if capabilitiesField.Some? {
        var normalized := NormalizeCapabilities(capabilitiesField.value);
        if normalized.Err? {
          sets := before;
          return Err(normalized.error);
        }
        r := PersistAndBump(id, normalized.value);
        if r.Err? {
          sets := before;
        }
        return;
      }
      return Ok(());
    }

    method DeleteSet(tenant: TenantId, id: Id, inUse: bool) returns (r: Result<(), Error>)
      modifies this
      ensures Answer(Delete(old(sets), tenant, id, inUse), old(sets), sets, r)
    {
      if id !in sets || sets[id].tenant != tenant {
        return Err(NotFound);
      }
      if sets[id].system {
        return Err(Conflict);
      }
      if inUse {
        return Err(Conflict);
      }
      sets := sets - {id};
      return Ok(());
    }

    /** The record handed back is the one read before a refresh. */
    method EnsureSet(tenant: TenantId, capabilities: seq<Capability>, newId: Id, digest: seq<Capability> -> string)
      returns (r: Result<Record, Error>)
      requires Valid(sets)
      modifies this
      ensures Answer(Ensure(old(sets), tenant, capabilities, newId, digest), old(sets), sets, r)
      ensures Valid(sets)
      ensures r.Ok? ==>
                && r.value.id in sets && sets[r.value.id].slug == r.value.slug == ComputeSlug(capabilities, digest)
                && sets[r.value.id].tenant == tenant && sets[r.value.id].capabilities == Elems(capabilities)
                && (r.value.id in old(sets) ==> r.value == RecordOf(old(sets), r.value.id))
                && (r.value.id !in old(sets) ==> r.value == RecordOf(sets, newId) && r.value.id == newId)
                && (r.value.version == sets[r.value.id].version <==>
                      r.value.id in old(sets) ==> LoadsAs(old(sets)[r.value.id].capabilities, capabilities))
    {
      if capabilities == [] {
        return Err(BadRequest);
      }
      var slug := ComputeSlug(capabilities, digest);
      if Ensure(sets, tenant, capabilities, newId, digest).Ok? {
        EnsureKeepsValid(sets, tenant, capabilities, newId, digest);
      }
      if x :| x in sets && SlugOwner(sets, tenant, slug, x) {
        forall y | SlugOwner(sets, tenant, slug, y)
          ensures y == x
        {
          assert !SameSlug(sets, x, y);
        }
        var current := LoadCapabilities(x);
        assert current == capabilities <==> LoadsAs(sets[x].capabilities, capabilities) by {
          if LoadsAs(sets[x].capabilities, capabilities) {
            assert forall c :: c in current <==> c in Elems(current);
            assert forall c :: c in capabilities <==> c in Elems(capabilities);
            AscendingIsUnique(current, capabilities);
          }
        }
        var existing := RecordOf(sets, x);
        if current == capabilities {
          return Ok(existing);
        }
        var refreshed := PersistAndBump(x, capabilities);
        if refreshed.Err? {
          return Err(refreshed.error);
        }
        return Ok(existing);
      }
      if newId in sets {
        return Err(Database);
      }
      if exists i, j :: 0 <= i < j < |capabilities| && capabilities[i] == capabilities[j] {
        return Err(Database);
      }
      sets := sets[newId := CapSet(tenant, slug, 1, IsSystemSlug(slug), Elems(capabilities))];
      return Ok(RecordOf(sets, newId));
    }
  }
}
