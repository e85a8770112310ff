/** Rules shared by the admin modules of configdb and configdb3: the one-group-per-type
    check on a camera form, and the read-only log entry admin. */
module AdminRules {
  import opened Outcomes
  import opened Memberships

  /** `set(xs)`. */
  function Elements<T(==,!new)>(xs: seq<T>): (r: set<T>)
    ensures forall x :: x in r <==> x in xs
    decreases |xs|
  {
    if |xs| == 0 then {}
    else
      assert forall x :: x in xs <==> x == xs[0] || x in xs[1..];
      {xs[0]} + Elements(xs[1..])
  }

  /** `len(set(xs)) == len(xs)` exactly when no value occurs twice. */
  lemma {:induction false} ElementsCardinality<T(!new)>(xs: seq<T>)
    ensures |Elements(xs)| <= |xs|
    ensures |Elements(xs)| == |xs| <==> Distinct(xs)
    decreases |xs|
  {
    if |xs| > 0 {
      var tail := xs[1..];
      ElementsCardinality(tail);
      if xs[0] in tail {
        assert Elements(xs) == Elements(tail);
        var j :| 0 <= j < |tail| && tail[j] == xs[0];
        assert xs[0] == xs[j + 1];
      } else {
        assert Elements(xs) == {xs[0]} + Elements(tail);
        assert xs[0] !in Elements(tail);
        if Distinct(tail) {
          forall i, j | 0 <= i < j < |xs|
            ensures xs[i] != xs[j]
          {
            if i == 0 {
              assert xs[j] == tail[j - 1];
            } else {
              assert xs[i] == tail[i - 1] && xs[j] == tail[j - 1];
            }
          }
        }
        if Distinct(xs) {
          forall i, j | 0 <= i < j < |tail|
            ensures tail[i] != tail[j]
          {
            assert tail[i] == xs[i + 1] && tail[j] == xs[j + 1];
          }
        }
      }
    }
  }

  const CameraGroupTypeError: string := "Can only have 1 optical element group of each type associated with a Camera"

  /** `CameraAdminForm.clean` over the types of the submitted groups (`None` when
      `optical_element_groups` is not in the cleaned data): the cleaned data is
      returned unchanged, or rejected when two groups share a type. */
  function CheckGroupTypes<C>(types: Option<seq<string>>, cleaned: C): (r: Result<C, string>)
    ensures r.Ok? ==> r.value == cleaned
    ensures r.Err? <==> types.Some? && exists i, j :: 0 <= i < j < |types.value| && types.value[i] == types.value[j]
    ensures r.Err? ==> r.error == CameraGroupTypeError
  {
    if types.Some? then
      ElementsCardinality(types.value);
      if |Elements(types.value)| != |types.value| then Err(CameraGroupTypeError) else Ok(cleaned)
    else Ok(cleaned)
  }

  /** The two facts the log entry permissions read from a request. */
  datatype AdminRequest = AdminRequest(isSuperuser: bool, httpMethod: string)

  /** `LogEntryAdmin.has_add_permission`. */
  function HasAddPermission(request: AdminRequest): (r: bool)
    ensures !r
  {
    false
  }

  /** `LogEntryAdmin.has_delete_permission`. */
  function HasDeletePermission(request: AdminRequest): (r: bool)
    ensures !r
  {
    false
  }

  /** `LogEntryAdmin.has_change_permission`. */
  function HasChangePermission(request: AdminRequest): (r: bool)
    ensures r ==> request.isSuperuser
    ensures request.httpMethod == "POST" ==> !r
    ensures request.isSuperuser && request.httpMethod != "POST" ==> r
  {
    request.isSuperuser && request.httpMethod != "POST"
  }

  /** Log entries can never be written through the admin: no request may add or
      delete one, and the only requests that may open one for change are a
      superuser's non-POST requests, so no form submission is ever accepted. */
  lemma LogEntriesReadOnly(request: AdminRequest)
    ensures !HasAddPermission(request) && !HasDeletePermission(request)
    ensures HasChangePermission(request) ==> request.isSuperuser && request.httpMethod != "POST"
    ensures request.isSuperuser && request.httpMethod == "GET" ==> HasChangePermission(request)
  {
  }

  /** `django.contrib.admin.models`: `ADDITION`, `CHANGE`, `DELETION`. */
  const Addition: int := 1
  const Change: int := 2
  const Deletion: int := 3

  /** `LogEntryAdmin.action`. */
  function ActionLabel(flag: int): (r: string)
    ensures r == "" <==> flag != Addition && flag != Change && flag != Deletion
    ensures flag == Deletion ==> r == "Deleted"
    ensures flag == Addition ==> r == "Created"
    ensures flag == Change ==> r == "Updated"
  {
    if flag == Deletion then "Deleted"
    else if flag == Addition then "Created"
    else if flag == Change then "Updated"
    else ""
  }

  /** Each known flag has its own label, so the label names the action. */
  lemma ActionLabelInjective(a: int, b: int)
    requires ActionLabel(a) != "" && ActionLabel(a) == ActionLabel(b)
    ensures a == b
  {
  }
}
