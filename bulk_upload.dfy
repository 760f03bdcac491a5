/**
 * The Region 10 bulk-upload wizard: step 1 stores the uploaded spreadsheet
 * as a contract source and remembers its primary key in the session; step 2
 * shows the file's metadata (GET) or queues the load job and forgets the key
 * (POST); step 3 shows the success page.
 *
 * The record store is the sequence of created sources (a source's primary key
 * is its position plus one) and the job queue is the sequence of job
 * arguments. Whether the upload form is valid is a parameter, since
 * Region10BulkUploadForm is not part of this model.
 */
module BulkUpload {
  import opened Wrappers
  import opened Decorators
  import opened Text
  import Forms

  const UploadSourceKey: string := "data_capture:upload_source_id"
  const DataAdministrators: string := "Data Administrators"
  const Step1Name: string := "data_capture:bulk_region_10_step_1"
  const Step2Name: string := "data_capture:bulk_region_10_step_2"
  const Step3Name: string := "data_capture:bulk_region_10_step_3"

  datatype ProcurementCenter = Region10 | OtherCenter(name: string)

  /** A BulkUploadContractSource row. */
  datatype Source = Source(
    submitter: User,
    center: ProcurementCenter,
    hasBeenLoaded: bool,
    originalFile: seq<int>,
    mimeType: string)

  /** The client's session, the stored sources and the queued job arguments. */
  datatype State = State(session: SessionData, sources: seq<Source>, jobs: seq<SessionValue>)

  /** What a wizard view answers. */
  datatype Response =
    | Denied(access: Access)       // role_permissions_required refused the user
    | MethodNotAllowed             // require_http_methods(["GET", "POST"])
    | Render(step: nat, formError: bool)
    | Redirect(name: string)       // django.shortcuts.redirect
    | AjaxRedirect(name: string)   // ajaxform.ajax_redirect
    | FormRedirect(name: string)   // ajaxform.redirect
    | RaisesDoesNotExist           // objects.get found no row with that pk

  /** objects.get(pk=v): the source whose primary key v is. */
  function Lookup(sources: seq<Source>, v: SessionValue): (r: Option<Source>)
    ensures r.Some? <==> v.IntValue? && 1 <= v.i <= |sources|
    ensures r.Some? ==> r.value == sources[v.i - 1]
  {
    if v.IntValue? && 1 <= v.i <= |sources| then Some(sources[v.i - 1]) else None
  }

  /** The source step 1 creates from a valid upload. */
  function NewSource(user: User, file: Forms.UploadedFile): (s: Source)
    ensures s.center == Region10 && !s.hasBeenLoaded
    ensures s.submitter == user && s.originalFile == file.content && s.mimeType == file.contentType
  {
    Source(user, Region10, false, file.content, file.contentType)
  }

  predicate IsGetOrPost(request: Request) {
    request.verb == Get || request.verb == Post
  }

  /**
   * region_10_step_1. `upload` is the cleaned file of a valid form, or None
   * when the form is invalid.
   */
  function Step1(roles: map<string, set<string>>, st: State, user: User, request: Request,
                 upload: Option<Forms.UploadedFile>): (r: (Response, State))
    requires DataAdministrators in roles
    ensures RolePermissionsRequired(roles, DataAdministrators, user) != Admit ==>
      r == (Denied(RolePermissionsRequired(roles, DataAdministrators, user)), st)
    ensures RolePermissionsRequired(roles, DataAdministrators, user) == Admit && request.verb == Get ==>
      r == (Render(1, false), st)
    ensures RolePermissionsRequired(roles, DataAdministrators, user) == Admit && !IsGetOrPost(request) ==>
      r == (MethodNotAllowed, st)
    ensures r.0 != FormRedirect(Step2Name) ==> r.1 == st
    ensures r.0 == FormRedirect(Step2Name) ==>
      (upload.Some? &&
       r.1.sources == st.sources + [NewSource(user, upload.value)] &&
       r.1.session == st.session[UploadSourceKey := IntValue(|r.1.sources|)] &&
       r.1.jobs == st.jobs)
    ensures r.0 == FormRedirect(Step2Name) <==>
      RolePermissionsRequired(roles, DataAdministrators, user) == Admit && request.verb == Post && upload.Some?
    ensures r.0 == Render(1, true) <==>
      RolePermissionsRequired(roles, DataAdministrators, user) == Admit && request.verb == Post && upload.None?
  {
    var access := RolePermissionsRequired(roles, DataAdministrators, user);
    if access != Admit then (Denied(access), st)
    else
      match request.verb
      case Get => (Render(1, false), st)
      case OtherMethod(_) => (MethodNotAllowed, st)
      case Post =>
        match upload
        case None => (Render(1, true), st)
        case Some(file) =>
          var sources := st.sources + [NewSource(user, file)];
          (FormRedirect(Step2Name), st.(sources := sources, session := st.session[UploadSourceKey := IntValue(|sources|)]))
  }

  /** region_10_step_2, behind handle_cancel with its default redirect and prefix. */
  function Step2(roles: map<string, set<string>>, st: State, user: User, request: Request): (r: (Response, State))
    requires DataAdministrators in roles
    ensures r.1.sources == st.sources
    ensures RolePermissionsRequired(roles, DataAdministrators, user) != Admit ==>
      r == (Denied(RolePermissionsRequired(roles, DataAdministrators, user)), st)
    ensures RolePermissionsRequired(roles, DataAdministrators, user) == Admit && IsCancel(request) ==>
      r.1 == st.(session := CancelledSession(st.session, DefaultKeyPrefix)) &&
      r.0 == (if request.isAjax then AjaxRedirect(DefaultRedirectName) else Redirect(DefaultRedirectName))
    ensures |r.1.jobs| != |st.jobs| <==>
      RolePermissionsRequired(roles, DataAdministrators, user) == Admit &&
      request.verb == Post && !IsCancel(request) && UploadSourceKey in st.session
    ensures |r.1.jobs| != |st.jobs| ==>
      r.0 == Redirect(Step3Name) &&
      r.1.jobs == st.jobs + [st.session[UploadSourceKey]] &&
      r.1.session == st.session - {UploadSourceKey}
    ensures r.0 == Redirect(Step1Name) ==> r.1 == st
    ensures (RolePermissionsRequired(roles, DataAdministrators, user) == Admit && !IsCancel(request) &&
             IsGetOrPost(request) && UploadSourceKey !in st.session) ==> r.0 == Redirect(Step1Name)
    ensures (RolePermissionsRequired(roles, DataAdministrators, user) == Admit && !IsCancel(request) &&
             !IsGetOrPost(request)) ==> r == (MethodNotAllowed, st)
    ensures (RolePermissionsRequired(roles, DataAdministrators, user) == Admit && !IsCancel(request) &&
             request.verb == Get && UploadSourceKey in st.session) ==>
      r.1 == st &&
      (r.0 == Render(2, false) <==> Lookup(st.sources, st.session[UploadSourceKey]).Some?) &&
      (r.0 != Render(2, false) ==> r.0 == RaisesDoesNotExist)
  {
    var access := RolePermissionsRequired(roles, DataAdministrators, user);
    if access != Admit then (Denied(access), st)
    else if IsCancel(request) then
      var response := if request.isAjax then AjaxRedirect(DefaultRedirectName) else Redirect(DefaultRedirectName);
      (response, st.(session := CancelledSession(st.session, DefaultKeyPrefix)))
    else if !IsGetOrPost(request) then (MethodNotAllowed, st)
    else if UploadSourceKey !in st.session then (Redirect(Step1Name), st)
    else
      var id := st.session[UploadSourceKey];
      if request.verb == Get then
        (if Lookup(st.sources, id).Some? then Render(2, false) else RaisesDoesNotExist, st)
      else
        (Redirect(Step3Name), st.(jobs := st.jobs + [id], session := st.session - {UploadSourceKey}))
  }

  /** region_10_step_3: the success page, for any method. */
  function Step3(roles: map<string, set<string>>, st: State, user: User): (r: (Response, State))
    requires DataAdministrators in roles
    ensures r.1 == st
    ensures r.0 == Render(3, false) <==> RolePermissionsRequired(roles, DataAdministrators, user) == Admit
    ensures RolePermissionsRequired(roles, DataAdministrators, user) != Admit ==>
      r.0 == Denied(RolePermissionsRequired(roles, DataAdministrators, user))
  {
    var access := RolePermissionsRequired(roles, DataAdministrators, user);
    if access != Admit then (Denied(access), st) else (Render(3, false), st)
  }

  // ---------------------------------------------------------------------
  // The wizard's invariant

  /** A key of the session or a queued job names a stored source. */
  predicate NamesSource(st: State, v: SessionValue) {
    Lookup(st.sources, v).Some?
  }

  /**
   * The session's upload id, when present, names a stored source that has
   * no job yet; every job names a stored source, and no source is queued twice.
   */
  predicate Valid(st: State) {
    (UploadSourceKey in st.session ==>
      NamesSource(st, st.session[UploadSourceKey]) && st.session[UploadSourceKey] !in st.jobs) &&
    (forall j :: 0 <= j < |st.jobs| ==> NamesSource(st, st.jobs[j])) &&
    (forall j, k :: 0 <= j < k < |st.jobs| ==> st.jobs[j] != st.jobs[k])
  }

  lemma Step1KeepsValid(roles: map<string, set<string>>, st: State, user: User, request: Request,
                        upload: Option<Forms.UploadedFile>)
    requires DataAdministrators in roles
    requires Valid(st)
    ensures Valid(Step1(roles, st, user, request, upload).1)
  {
    var st' := Step1(roles, st, user, request, upload).1;
    if st' != st {
      var pk := IntValue(|st'.sources|);
      forall j | 0 <= j < |st.jobs| ensures st.jobs[j] != pk && NamesSource(st', st.jobs[j]) {
        assert NamesSource(st, st.jobs[j]);
      }
      assert pk !in st.jobs;
    }
  }

  lemma Step2KeepsValid(roles: map<string, set<string>>, st: State, user: User, request: Request)
    requires DataAdministrators in roles
    requires Valid(st)
    ensures Valid(Step2(roles, st, user, request).1)
  {
    var st' := Step2(roles, st, user, request).1;
    if |st'.jobs| != |st.jobs| {
      var id := st.session[UploadSourceKey];
      assert st'.jobs == st.jobs + [id];
      forall j, k | 0 <= j < k < |st'.jobs| ensures st'.jobs[j] != st'.jobs[k] {
        if k == |st.jobs| {
          assert st'.jobs[j] == st.jobs[j];
        }
      }
    } else if RolePermissionsRequired(roles, DataAdministrators, user) == Admit && IsCancel(request) {
      assert UploadSourceKey !in st'.session by {
        assert StartsWith(UploadSourceKey, DefaultKeyPrefix);
      }
    }
  }

  /**
   * After a step-2 POST has queued the job, a second step-2 request, whatever
   * it is, queues nothing: the session no longer holds the upload id.
   */
  lemma NoDuplicateJob(roles: map<string, set<string>>, st: State, user: User, post: Request,
                       user2: User, again: Request)
    requires DataAdministrators in roles
    requires |Step2(roles, st, user, post).1.jobs| != |st.jobs|
    ensures var st' := Step2(roles, st, user, post).1;
      Step2(roles, st', user2, again).1.jobs == st'.jobs
  {
    var st' := Step2(roles, st, user, post).1;
    assert UploadSourceKey !in st'.session;
  }

  /** One request to one of the three views. */
  datatype Call =
    | Step1Call(user: User, request: Request, upload: Option<Forms.UploadedFile>)
    | Step2Call(user: User, request: Request)
    | Step3Call(user: User)

  function Dispatch(roles: map<string, set<string>>, st: State, call: Call): (Response, State)
    requires DataAdministrators in roles
  {
    match call
    case Step1Call(user, request, upload) => Step1(roles, st, user, request, upload)
    case Step2Call(user, request) => Step2(roles, st, user, request)
    case Step3Call(user) => Step3(roles, st, user)
  }

  /** The state after a sequence of requests. */
  function Run(roles: map<string, set<string>>, st: State, calls: seq<Call>): State
    requires DataAdministrators in roles
    decreases |calls|
  {
    if |calls| == 0 then st else Run(roles, Dispatch(roles, st, calls[0]).1, calls[1..])
  }

  /** From an empty start, no source is ever queued twice and every job names a stored source. */
  lemma {:induction false} RunKeepsValid(roles: map<string, set<string>>, st: State, calls: seq<Call>)
    requires DataAdministrators in roles
    requires Valid(st)
    ensures Valid(Run(roles, st, calls))
    decreases |calls|
  {
    if |calls| > 0 {
      match calls[0] {
        case Step1Call(user, request, upload) => Step1KeepsValid(roles, st, user, request, upload);
        case Step2Call(user, request) => Step2KeepsValid(roles, st, user, request);
        case Step3Call(user) =>
      }
      RunKeepsValid(roles, Dispatch(roles, st, calls[0]).1, calls[1..]);
    }
  }

  lemma EmptyIsValid(session: SessionData)
    requires UploadSourceKey !in session
    ensures Valid(State(session, [], []))
  {
  }

  // ---------------------------------------------------------------------
  // The views over a live session, record store and job queue

  class Wizard {
    const session: Session
    var sources: seq<Source>
    var jobs: seq<SessionValue>

    constructor (session: Session)
      ensures this.session == session && sources == [] && jobs == []
    {
      this.session := session;
      sources := [];
      jobs := [];
    }

    function Current(): State
      reads this, session
    {
      State(session.data, sources, jobs)
    }

    method RegionTenStep1(roles: map<string, set<string>>, user: User, request: Request,
                          upload: Option<Forms.UploadedFile>) returns (response: Response)
      requires DataAdministrators in roles
      modifies this, session
      ensures (response, Current()) == Step1(roles, old(Current()), user, request, upload)
    {
      var access := RolePermissionsRequired(roles, DataAdministrators, user);
      if access != Admit {
        return Denied(access);
      }
      if request.verb == Get {
        return Render(1, false);
      } else if request.verb != Post {
        return MethodNotAllowed;
      }
      if upload.None? {
        return Render(1, true);
      }
      sources := sources + [NewSource(user, upload.value)];
      session.data := session.data[UploadSourceKey := IntValue(|sources|)];
      response := FormRedirect(Step2Name);
    }

    method RegionTenStep2(roles: map<string, set<string>>, user: User, request: Request) returns (response: Response)
      requires DataAdministrators in roles
      modifies this, session
      ensures (response, Current()) == Step2(roles, old(Current()), user, request)
    {
      var access := RolePermissionsRequired(roles, DataAdministrators, user);
      if access != Admit {
        return Denied(access);
      }
      var cancel := HandleCancel(request, session, DefaultRedirectName, DefaultKeyPrefix);
      match cancel {
        case RedirectTo(name) => return Redirect(name);
        case AjaxRedirectTo(name) => return AjaxRedirect(name);
        case PassThrough =>
      }
      if !IsGetOrPost(request) {
        return MethodNotAllowed;
      }
      if UploadSourceKey !in session.data {
        return Redirect(Step1Name);
      }
      var id := session.data[UploadSourceKey];
      if request.verb == Get {
        var source := Lookup(sources, id);
        response := if source.Some? then Render(2, false) else RaisesDoesNotExist;
        return;
      }
      jobs := jobs + [id];
      session.data := session.data - {UploadSourceKey};
      response := Redirect(Step3Name);
    }

    method RegionTenStep3(roles: map<string, set<string>>, user: User) returns (response: Response)
      requires DataAdministrators in roles
      ensures (response, Current()) == Step3(roles, Current(), user)
    {
      var access := RolePermissionsRequired(roles, DataAdministrators, user);
      response := if access != Admit then Denied(access) else Render(3, false);
    }
  }
}
