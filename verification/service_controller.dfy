/** The catalogue of backend/controllers/serviceController.js: departments
    and the service types they offer. Reads are open to everyone; the three
    writes (create a service, create a department, patch a department) fill
    in defaults for falsy fields or keep what is not supplied. */
module ServiceController {
  import opened Common
  import opened Store
  import opened Sql
  import ErrorHandler

  // ---------------------------------------------------------------------
  // Listing orders: ORDER BY dept_name, and dept_name, service_name
  // ---------------------------------------------------------------------

  /** Names compared character by character, a proper prefix first. */
  predicate NameAtMost(a: string, b: string)
    decreases |a|
  {
    a == [] || (b != [] && (a[0] < b[0] || (a[0] == b[0] && NameAtMost(a[1..], b[1..]))))
  }

  /** Any two names are comparable, so a listing sorted by name exists for
      every set of rows. */
  lemma {:induction false} NameOrderTotal(a: string, b: string)
    ensures NameAtMost(a, b) || NameAtMost(b, a)
    decreases |a|
  {
    if a != [] && b != [] && a[0] == b[0] {
      NameOrderTotal(a[1..], b[1..]);
    }
  }

  /** Two names that sort both ways are the same name: the sort key has no
      ties between distinct names. */
  lemma {:induction false} NameOrderAntisymmetric(a: string, b: string)
    requires NameAtMost(a, b) && NameAtMost(b, a)
    ensures a == b
    decreases |a|
  {
    if a != [] {
      NameOrderAntisymmetric(a[1..], b[1..]);
      assert a == [a[0]] + a[1..] && b == [b[0]] + b[1..];
    }
  }

  lemma {:induction false} NameOrderTransitive(a: string, b: string, c: string)
    requires NameAtMost(a, b) && NameAtMost(b, c)
    ensures NameAtMost(a, c)
    decreases |a|
  {
    if a != [] && b != [] && c != [] && a[0] == b[0] && b[0] == c[0] {
      NameOrderTransitive(a[1..], b[1..], c[1..]);
    }
  }

  /** getAllDepartments: every department, ordered by name. */
  predicate DepartmentsInOrder(ds: seq<Department>) {
    forall i, j :: 0 <= i < j < |ds| ==> NameAtMost(ds[i].name, ds[j].name)
  }

  /** The first department listed has the least name of all. */
  lemma FirstDepartmentLeast(ds: seq<Department>)
    requires DepartmentsInOrder(ds) && ds != []
    ensures forall k :: 0 <= k < |ds| ==> NameAtMost(ds[0].name, ds[k].name)
  {
    NameOrderTotal(ds[0].name, ds[0].name);
  }

  /** In the departments listing, departments that share a name come in one
      run. */
  lemma DepartmentsByName(ds: seq<Department>, i: nat, k: nat, j: nat)
    requires DepartmentsInOrder(ds) && i < k < j < |ds|
    requires ds[i].name == ds[j].name
    ensures ds[k].name == ds[i].name
  {
    assert NameAtMost(ds[i].name, ds[k].name) && NameAtMost(ds[k].name, ds[j].name);
    NameOrderAntisymmetric(ds[i].name, ds[k].name);
  }

  /** A service row joined with its department, as the reads return it. */
  datatype ServiceEntry = ServiceEntry(
    serviceId: nat,
    name: string,
    description: Option<string>,
    defaultPriority: string,
    deptId: nat,
    deptName: string,
    responseSlaHours: int)

  /** s may be listed before t: by department name, then by service name. */
  predicate ServiceListedBefore(s: ServiceEntry, t: ServiceEntry) {
    (NameAtMost(s.deptName, t.deptName) && s.deptName != t.deptName) ||
    (s.deptName == t.deptName && NameAtMost(s.name, t.name))
  }

  predicate ServicesInOrder(ss: seq<ServiceEntry>) {
    forall i, j :: 0 <= i < j < |ss| ==> ServiceListedBefore(ss[i], ss[j])
  }

  /** In the services listing, services that share a department name come
      in one run: anything listed between two of them has that department
      name as well. Two departments with the same name may interleave. */
  lemma DepartmentsContiguous(ss: seq<ServiceEntry>, i: nat, k: nat, j: nat)
    requires ServicesInOrder(ss) && i < k < j < |ss|
    requires ss[i].deptName == ss[j].deptName
    ensures ss[k].deptName == ss[i].deptName
  {
    assert ServiceListedBefore(ss[i], ss[k]) && ServiceListedBefore(ss[k], ss[j]);
    if ss[k].deptName != ss[i].deptName {
      NameOrderAntisymmetric(ss[i].deptName, ss[k].deptName);
    }
  }

  // ---------------------------------------------------------------------
  // getAllServices
  // ---------------------------------------------------------------------

  /** The query string: `deptId` counts when it is a non-empty value. */
  datatype ServiceQuery = ServiceQuery(deptId: Option<int>)

  function ServiceFilters(q: ServiceQuery): seq<Filter> {
    if q.deptId.Some? then [Filter(DeptCol, Eq, Int(q.deptId.value))] else []
  }

  /** A service row seen through the filterable columns. */
  function ServiceRow(s: Service): Row {
    (c: Column) => if c == DeptCol then Some(Int(s.deptId)) else None
  }

  /** getAllServices' statement: ` WHERE s.dept_id = $1` and one parameter
      only when deptId is given, then ORDER BY dept_name, service_name and
      no LIMIT. */
  method BuildServiceListing(q: ServiceQuery) returns (list: Select, params: seq<Value>)
    ensures (list, params) == Compile(ServiceFilters(q), DeptThenService, None)
  {
    var conds: seq<Cond> := [];
    params := [];
    var paramCount: nat := 0;
    ghost var fs: seq<Filter> := [];
    if q.deptId.Some? {
      var f := Filter(DeptCol, Eq, Int(q.deptId.value));
      conds, params, paramCount := PushFilter(conds, params, paramCount, fs, f);
      fs := fs + [f];
    }
    assert fs == ServiceFilters(q);
    list := Select(conds, DeptThenService, None);
    assert params + [] == params;
  }

  /** The placeholders match the params (none, or exactly $1 and one value),
      and the statement keeps exactly the services of the asked department,
      or all of them. */
  lemma ServiceListingMeaning(q: ServiceQuery, s: Service)
    ensures var (list, params) := Compile(ServiceFilters(q), DeptThenService, None);
            && WellNumbered(list, params)
            && |params| == (if q.deptId.Some? then 1 else 0)
            && (Selects(list, params, ServiceRow(s)) <==> (q.deptId.Some? ==> s.deptId == q.deptId.value))
  {
    var fs := ServiceFilters(q);
    CompileWellNumbered(fs, DeptThenService, None);
    CompileMeaning(fs, DeptThenService, None, ServiceRow(s));
    CompiledLength(fs, 1);
    assert ServiceRow(s)(DeptCol) == Some(Int(s.deptId));
    if q.deptId.Some? {
      assert fs[0] == Filter(DeptCol, Eq, Int(q.deptId.value));
    }
  }

  // ---------------------------------------------------------------------
  // getServiceById
  // ---------------------------------------------------------------------

  /** getServiceById: the service joined with its department, or 404. The
      join means a service whose department row is gone is not found. */
  method GetServiceById(db: Database, id: nat) returns (reply: Reply<ServiceEntry>)
    ensures reply.Success? <==> id in db.services && db.services[id].deptId in db.departments
    ensures reply.Failure? ==> reply == Failure(404, "Service not found")
    ensures reply.Success? ==>
              var s := db.services[id];
              var d := db.departments[s.deptId];
              reply == Success(200, ServiceEntry(id, s.name, s.description, s.defaultPriority, s.deptId, d.name, d.responseSlaHours))
  {
    if id !in db.services || db.services[id].deptId !in db.departments {
      return Failure(404, "Service not found");
    }
    var s := db.services[id];
    var d := db.departments[s.deptId];
    reply := Success(200, ServiceEntry(id, s.name, s.description, s.defaultPriority, s.deptId, d.name, d.responseSlaHours));
  }

  // ---------------------------------------------------------------------
  // createService
  // ---------------------------------------------------------------------

  datatype ServiceBody = ServiceBody(serviceName: Option<string>, deptId: Option<int>, description: Option<string>, defaultPriority: Option<string>)

  /** The values createService binds to its INSERT. */
  datatype NewService = NewService(name: string, deptId: int, description: Option<string>, defaultPriority: string)

  /** The checks and defaults of createService: name and a non-zero
      department id are required; the description goes in as given; a falsy
      default priority becomes 'medium', any other is kept as sent. */
  function ValidateService(b: ServiceBody): (v: Verdict<NewService>)
    ensures v.Fail? <==> !Truthy(b.serviceName) || !TruthyInt(b.deptId)
    ensures v.Fail? ==> v == Fail(400, "Service name and department ID are required")
    ensures v.Pass? ==>
              v.value.name == b.serviceName.value && v.value.deptId == b.deptId.value &&
              v.value.description == b.description
    ensures v.Pass? ==> v.value.defaultPriority != ""
    ensures v.Pass? && Truthy(b.defaultPriority) ==> v.value.defaultPriority == b.defaultPriority.value
    ensures v.Pass? && !Truthy(b.defaultPriority) ==> v.value.defaultPriority == "medium"
  {
    if !Truthy(b.serviceName) || !TruthyInt(b.deptId) then
      Fail(400, "Service name and department ID are required")
    else
      Pass(NewService(b.serviceName.value, b.deptId.value, b.description, OrElse(b.defaultPriority, "medium")))
  }

  /** createService: validate, then insert one row. The dept_id foreign key
      refuses an id with no department (SQLSTATE 23503), which the error
      handler reports as a 400. */
  method CreateService(db: Database, body: ServiceBody) returns (reply: Reply<(nat, Service)>)
    requires db.Valid()
    modifies db`services, db`nextServiceId
    ensures db.Valid()
    ensures ValidateService(body).Fail? ==>
              reply == Failure(400, "Service name and department ID are required") && unchanged(db)
    ensures ValidateService(body).Pass? && (body.deptId.value < 0 || body.deptId.value !in old(db.departments)) ==>
              reply == Failure(400, "Referenced record does not exist") && unchanged(db)
    ensures reply.Success? <==>
              ValidateService(body).Pass? && body.deptId.value >= 0 && body.deptId.value in old(db.departments)
    ensures reply.Success? ==>
              var n := ValidateService(body).value;
              var id := old(db.nextServiceId);
              id !in old(db.services) &&
              reply == Success(201, (id, Service(n.name, n.deptId, n.description, n.defaultPriority))) &&
              db.services == old(db.services)[id := reply.payload.1]
  {
    var v := ValidateService(body);
    if v.Fail? {
      return Failure(v.status, v.error);
    }
    var n := v.value;
    if n.deptId < 0 || n.deptId !in db.departments {
      var r := ErrorHandler.HandleError(ErrorHandler.DbError(ErrorHandler.ForeignKeyViolation));
      return Failure(r.status, r.error);
    }
    var id := db.nextServiceId;
    var row := Service(n.name, n.deptId, n.description, n.defaultPriority);
    db.services := db.services[id := row];
    db.nextServiceId := db.nextServiceId + 1;
    reply := Success(201, (id, row));
  }

  // ---------------------------------------------------------------------
  // createDepartment
  // ---------------------------------------------------------------------

  datatype DepartmentBody = DepartmentBody(deptName: Option<string>, maxCapacity: Option<int>, responseSlaHours: Option<int>)

  /** The checks and defaults of createDepartment: a name is required; a
      falsy capacity becomes 50 and a falsy SLA 48, so neither is ever stored
      as 0, and a non-zero value is stored as sent. */
  function ValidateDepartment(b: DepartmentBody): (v: Verdict<Department>)
    ensures v.Fail? <==> !Truthy(b.deptName)
    ensures v.Fail? ==> v == Fail(400, "Department name is required")
    ensures v.Pass? ==> v.value.name == b.deptName.value
    ensures v.Pass? ==> v.value.maxCapacity != 0 && v.value.responseSlaHours != 0
    ensures v.Pass? ==> v.value.maxCapacity == (if TruthyInt(b.maxCapacity) then b.maxCapacity.value else 50)
    ensures v.Pass? ==> v.value.responseSlaHours == (if TruthyInt(b.responseSlaHours) then b.responseSlaHours.value else 48)
  {
    if !Truthy(b.deptName) then Fail(400, "Department name is required")
    else Pass(Department(b.deptName.value, OrElseInt(b.maxCapacity, 50), OrElseInt(b.responseSlaHours, 48)))
  }

  /** createDepartment: validate, then insert the row under the next id. */
  method CreateDepartment(db: Database, body: DepartmentBody) returns (reply: Reply<(nat, Department)>)
    requires db.Valid()
    modifies db`departments, db`nextDeptId
    ensures db.Valid()
    ensures reply.Success? <==> ValidateDepartment(body).Pass?
    ensures reply.Failure? ==> reply == Failure(400, "Department name is required") && unchanged(db)
    ensures reply.Success? ==>
              var id := old(db.nextDeptId);
              id !in old(db.departments) &&
              reply == Success(201, (id, ValidateDepartment(body).value)) &&
              db.departments == old(db.departments)[id := ValidateDepartment(body).value]
  {
    var v := ValidateDepartment(body);
    if v.Fail? {
      return Failure(v.status, v.error);
    }
    var id := db.nextDeptId;
    db.departments := db.departments[id := v.value];
    db.nextDeptId := db.nextDeptId + 1;
    reply := Success(201, (id, v.value));
  }

  // ---------------------------------------------------------------------
  // updateDepartment
  // ---------------------------------------------------------------------

  /** The body of a department update; None is a field not sent (bound as
      NULL). '' and 0 are real values here: COALESCE only skips NULL. */
  datatype DepartmentPatch = DepartmentPatch(deptName: Option<string>, maxCapacity: Option<int>, responseSlaHours: Option<int>)

  /** `SET col = COALESCE($k, col)` for each of the three columns. */
  function Patched(d: Department, p: DepartmentPatch): Department {
    Department(p.deptName.GetOr(d.name), p.maxCapacity.GetOr(d.maxCapacity), p.responseSlaHours.GetOr(d.responseSlaHours))
  }

  /** A supplied field is written, even '' or 0, and an unsupplied one keeps
      its stored value. */
  lemma PatchReplacesOnlySupplied(d: Department, p: DepartmentPatch)
    ensures p.deptName.Some? ==> Patched(d, p).name == p.deptName.value
    ensures p.deptName.None? ==> Patched(d, p).name == d.name
    ensures p.maxCapacity.Some? ==> Patched(d, p).maxCapacity == p.maxCapacity.value
    ensures p.maxCapacity.None? ==> Patched(d, p).maxCapacity == d.maxCapacity
    ensures p.responseSlaHours.Some? ==> Patched(d, p).responseSlaHours == p.responseSlaHours.value
    ensures p.responseSlaHours.None? ==> Patched(d, p).responseSlaHours == d.responseSlaHours
  {
  }

  /** Sending the same update twice has the effect of sending it once, and
      an empty update changes nothing. */
  lemma PatchIdempotent(d: Department, p: DepartmentPatch)
    ensures Patched(Patched(d, p), p) == Patched(d, p)
    ensures Patched(d, DepartmentPatch(None, None, None)) == d
  {
  }

  /** Two updates in a row act as one whose fields come from the later
      update where it supplies them and from the earlier one otherwise. */
  lemma PatchesCompose(d: Department, p: DepartmentPatch, q: DepartmentPatch)
    ensures Patched(Patched(d, p), q) ==
            Patched(d, DepartmentPatch(
              if q.deptName.Some? then q.deptName else p.deptName,
              if q.maxCapacity.Some? then q.maxCapacity else p.maxCapacity,
              if q.responseSlaHours.Some? then q.responseSlaHours else p.responseSlaHours))
  {
  }

  /** updateDepartment: 404 for an unknown id with nothing changed;
      otherwise only that row changes, to its patched value. */
  method UpdateDepartment(db: Database, id: nat, patch: DepartmentPatch) returns (reply: Reply<Department>)
    requires db.Valid()
    modifies db`departments
    ensures db.Valid()
    ensures reply.Success? <==> id in old(db.departments)
    ensures reply.Failure? ==> reply == Failure(404, "Department not found") && unchanged(db)
    ensures reply.Success? ==>
              reply == Success(200, Patched(old(db.departments)[id], patch)) &&
              db.departments == old(db.departments)[id := reply.payload]
  {
    if id !in db.departments {
      return Failure(404, "Department not found");
    }
    var row := Patched(db.departments[id], patch);
    db.departments := db.departments[id := row];
    reply := Success(200, row);
  }
}
