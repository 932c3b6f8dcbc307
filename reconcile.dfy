/**
 * The reconciliation engine of process_contacts, one row at a time: a cleaned
 * contact that the lookup does not find becomes a create operation, a found one
 * becomes an update operation (when updates are enabled), and every row adds
 * its cleaning log. `Run` folds `Step` over the cleaned rows; `Updater.Updater.ProcessContacts`
 * performs the same loop in place and is proved against it.
 */
module Reconcile {
  import opened Wrappers
  import opened Strings
  import opened Email
  import opened Normalizer
  import opened Remote

  /** The two contact types the run can be started with. */
  datatype ContactType = Student | Employee

  /** The TYPE merge field. */
  function TypeName(t: ContactType): string {
    match t
    case Student => "Student"
    case Employee => "Employee"
  }

  /** The list id, the update switch and the interest ids of the configured categories. */
  datatype Config = Config(
    listId: string,
    updateEnabled: bool,
    studentId: string,
    employeeId: string,
    weeklyId: string,
    nederlandsId: string,
    englishId: string)

  /** The interest id of the contact type in the configured Type category. */
  function TypeInterest(cfg: Config, t: ContactType): string {
    match t
    case Student => cfg.studentId
    case Employee => cfg.employeeId
  }

  /**
   * Why a run stops before its last row: the English interest is missing from a
   * member record (a KeyError), or the first update finds a non-boolean English
   * flag, so there is no language to carry over (an unbound local).
   */
  datatype Failure = EnglishInterestMissing | LanguageUnbound

  /** What a run depends on besides its rows: configuration, contact type, hashing and lookup. */
  datatype Env = Env(
    config: Config,
    contactType: ContactType,
    md5: string -> string,
    lookup: string -> Option<Snapshot>)

  /**
   * The engine's state: the error log, both batches, the counters cnt,
   * nieuw_lid and update_lid, the language carried from update to update, and
   * the failure that stopped the run, if any.
   */
  datatype State = State(
    fouten: seq<string>,
    createBatch: seq<Operation>,
    updateBatch: seq<Operation>,
    cnt: nat,
    created: nat,
    updated: nat,
    taalset: Option<string>,
    failure: Option<Failure>)

  /** The state a run starts from, given the log and batches it inherits. */
  function Start(fouten: seq<string>, createBatch: seq<Operation>, updateBatch: seq<Operation>): State {
    State(fouten, createBatch, updateBatch, 0, 0, 0, None, None)
  }

  function MembersPath(cfg: Config): string {
    "/lists/" + cfg.listId + "/members/"
  }

  /** The subscriber hash: md5 of the lower-cased address. */
  function SubscriberHash(env: Env, email: string): string {
    env.md5(Lower(email))
  }

  /** The POST that subscribes a new member with the spreadsheet's names. */
  function CreateOperation(env: Env, c: Contact): Operation {
    Operation(POST, MembersPath(env.config), "create_batch",
      MemberData(c.email, Some("subscribed"), c.firstName, c.lastName, TypeName(env.contactType),
        map[TypeInterest(env.config, env.contactType) := true,
            env.config.weeklyId := true,
            env.config.nederlandsId := true]))
  }

  /**
   * The name an update sends: the remote merge field unless it is null; a merge
   * field that is absent reads as "".
   */
  function KeepRemote(f: NameField, sheet: string): string
  {
    match f
    case Absent => ""
    case Null => sheet
    case Name(s) => s
  }

  datatype Language = Chosen(id: string) | Fails(failure: Failure)

  /** The language interest of an update, given the one chosen by the previous update. */
  function ChooseLanguage(cfg: Config, interests: map<string, InterestValue>, prev: Option<string>): Language {
    if cfg.englishId !in interests then Fails(EnglishInterestMissing)
    else match interests[cfg.englishId]
      case Flag(b) => Chosen(if b then cfg.englishId else cfg.nederlandsId)
      case Other => if prev.Some? then Chosen(prev.value) else Fails(LanguageUnbound)
  }

  /** The PATCH that updates an existing member. */
  function UpdateOperation(env: Env, c: Contact, hit: Snapshot, lang: string): Operation {
    Operation(PATCH, MembersPath(env.config) + SubscriberHash(env, c.email), "update_batch",
      MemberData(c.email, None, KeepRemote(hit.fname, c.firstName), KeepRemote(hit.lname, c.lastName),
        TypeName(env.contactType),
        map[TypeInterest(env.config, env.contactType) := true, lang := true]))
  }

  /**
   * [f(xs[0], k), f(xs[1], k + 1), ...]. The definition is split over two
   * functions so that unfolding it once does not yet apply `f`.
   */
  function MapIndexed<A, B>(f: (A, nat) -> B, xs: seq<A>, k: nat): (ys: seq<B>)
    ensures |ys| == |xs|
    decreases |xs|, 1
  {
    if xs == [] then [] else MapIndexedCons(f, xs, k)
  }

  function MapIndexedCons<A, B>(f: (A, nat) -> B, xs: seq<A>, k: nat): (ys: seq<B>)
    requires xs != []
    ensures |ys| == |xs|
    decreases |xs|, 0
  {
    [f(xs[0], k)] + MapIndexed(f, xs[1..], k + 1)
  }

  lemma {:induction false} MapIndexedAt<A, B>(f: (A, nat) -> B, xs: seq<A>, k: nat, i: nat)
    requires i < |xs|
    ensures MapIndexed(f, xs, k)[i] == f(xs[i], k + i)
    decreases |xs|
  {
    assert MapIndexed(f, xs, k) == MapIndexedCons(f, xs, k);
    if i > 0 {
      MapIndexedAt(f, xs[1..], k + 1, i - 1);
    }
  }

  lemma MapIndexedAtZero<A, B>(f: (A, nat) -> B, xs: seq<A>, i: nat)
    requires i < |xs|
    ensures MapIndexed(f, xs, 0)[i] == f(xs[i], i)
  {
    MapIndexedAt(f, xs, 0, i);
  }

  /** Every row cleaned, row `i` with index `i`. */
  function Cleaned(rows: seq<Row>): (ns: seq<Normalized>)
    ensures |ns| == |rows|
  {
    MapIndexed(Normalize, rows, 0)
  }

  /** Row `i` is cleaned with index `i`. */
  lemma CleanedAt(rows: seq<Row>, i: nat)
    requires i < |rows|
    ensures Cleaned(rows)[i] == Normalize(rows[i], i)
  {
    MapIndexedAtZero(Normalize, rows, i);
  }

  /** Reference: the create operation a kept contact contributes, independently of the engine's state. */
  function CreateFor(env: Env, c: Contact): seq<Operation> {
    if env.lookup(SubscriberHash(env, c.email)).None? then [CreateOperation(env, c)] else []
  }

  /** Reference: the path of the update a kept contact contributes, when it contributes one. */
  function UpdatePathFor(env: Env, c: Contact): seq<string> {
    if env.lookup(SubscriberHash(env, c.email)).Some? && env.config.updateEnabled
    then [MembersPath(env.config) + SubscriberHash(env, c.email)]
    else []
  }

  function CreateOf(env: Env, n: Normalized): seq<Operation> {
    match n.contact
    case None => []
    case Some(c) => CreateFor(env, c)
  }

  function UpdatePathOf(env: Env, n: Normalized): seq<string> {
    match n.contact
    case None => []
    case Some(c) => UpdatePathFor(env, c)
  }

  function Paths(ops: seq<Operation>): (ps: seq<string>)
    ensures |ps| == |ops| && forall i :: 0 <= i < |ops| ==> ps[i] == ops[i].path
  {
    seq(|ops|, i requires 0 <= i < |ops| => ops[i].path)
  }

  /** The part of the loop body that looks a kept contact up and queues its create or update. */
  function Dispatch(env: Env, s: State, c: Contact): (r: State)
    requires s.failure.None?
    ensures r.fouten == s.fouten && r.cnt == s.cnt
    ensures r.createBatch == s.createBatch + CreateFor(env, c)
    ensures r.failure.None? ==> Paths(r.updateBatch) == Paths(s.updateBatch) + UpdatePathFor(env, c)
    ensures |r.createBatch| + s.created == |s.createBatch| + r.created
    ensures |r.updateBatch| + s.updated == |s.updateBatch| + r.updated
    ensures s.updateBatch <= r.updateBatch
  {
    match env.lookup(SubscriberHash(env, c.email))
    case None =>
      s.(createBatch := s.createBatch + [CreateOperation(env, c)], created := s.created + 1)
    case Some(hit) =>
      if !env.config.updateEnabled then s
      else match ChooseLanguage(env.config, hit.interests, s.taalset)
        case Fails(f) => s.(failure := Some(f))
        case Chosen(lang) =>
          var op := UpdateOperation(env, c, hit, lang);
          assert Paths(s.updateBatch + [op]) == Paths(s.updateBatch) + [op.path];
          s.(updateBatch := s.updateBatch + [op], updated := s.updated + 1, taalset := Some(lang))
  }

  /** One pass of the loop body, for a row that cleaned into `n`. */
  function Step(env: Env, s: State, n: Normalized): (r: State)
    ensures s.failure.Some? ==> r == s
    ensures s.failure.None? ==> r.cnt == s.cnt + 1 && r.fouten == s.fouten + n.log
    ensures s.failure.None? ==> r.createBatch == s.createBatch + CreateOf(env, n)
    ensures s.failure.None? && r.failure.None? ==>
      Paths(r.updateBatch) == Paths(s.updateBatch) + UpdatePathOf(env, n)
    ensures |r.createBatch| + s.created == |s.createBatch| + r.created
    ensures |r.updateBatch| + s.updated == |s.updateBatch| + r.updated
    ensures s.updateBatch <= r.updateBatch
  {
    if s.failure.Some? then s
    else
      var s1 := s.(fouten := s.fouten + n.log, cnt := s.cnt + 1);
      match n.contact
      case None => s1
      case Some(c) => Dispatch(env, s1, c)
  }

  /** The loop over the cleaned rows, in order. */
  function Run(env: Env, s: State, ns: seq<Normalized>): State
    decreases |ns|
  {
    if ns == [] then s
    else Step(env, Run(env, s, ns[..|ns| - 1]), ns[|ns| - 1])
  }

  // ---- one row ------------------------------------------------------------

  /** A rejected row only adds its log and counts. */
  lemma StepRejects(env: Env, s: State, n: Normalized)
    requires s.failure.None? && n.contact.None?
    ensures Step(env, s, n) == s.(fouten := s.fouten + n.log, cnt := s.cnt + 1)
  {
  }

  /** A kept row adds its log and counts, then goes to the dispatch. */
  lemma StepKept(env: Env, s: State, n: Normalized, c: Contact)
    requires s.failure.None? && n.contact == Some(c)
    ensures Step(env, s, n) == Dispatch(env, s.(fouten := s.fouten + n.log, cnt := s.cnt + 1), c)
  {
  }

  /**
   * A contact the lookup does not find adds exactly one operation to the create
   * batch: a POST to the list's members that subscribes the address with the
   * spreadsheet names, the contact type, and the type, weekly and Nederlands
   * interests set.
   */
  lemma StepCreates(env: Env, s: State, n: Normalized)
    requires s.failure.None? && n.contact.Some?
    requires env.lookup(SubscriberHash(env, n.contact.value.email)).None?
    ensures
      var c := n.contact.value;
      var r := Step(env, s, n);
      && r.fouten == s.fouten + n.log
      && r.cnt == s.cnt + 1 && r.created == s.created + 1
      && r.updateBatch == s.updateBatch && r.updated == s.updated
      && r.taalset == s.taalset && r.failure.None?
      && |r.createBatch| == |s.createBatch| + 1 && r.createBatch[..|s.createBatch|] == s.createBatch
      && var op := r.createBatch[|s.createBatch|];
      && op.verb == POST && op.path == "/lists/" + env.config.listId + "/members/"
      && op.operationId == "create_batch"
      && op.body.emailAddress == c.email && op.body.status == Some("subscribed")
      && op.body.fname == c.firstName && op.body.lname == c.lastName
      && op.body.contactType == TypeName(env.contactType)
      && op.body.interests.Keys == {TypeInterest(env.config, env.contactType), env.config.weeklyId, env.config.nederlandsId}
      && forall id :: id in op.body.interests ==> op.body.interests[id]
  {
    var r := Step(env, s, n);
    assert r.createBatch[..|s.createBatch|] == s.createBatch;
  }

  /** With updates switched off, a found member changes nothing but the log and cnt. */
  lemma StepSkipsExisting(env: Env, s: State, n: Normalized)
    requires s.failure.None? && n.contact.Some? && !env.config.updateEnabled
    requires env.lookup(SubscriberHash(env, n.contact.value.email)).Some?
    ensures Step(env, s, n) == s.(fouten := s.fouten + n.log, cnt := s.cnt + 1)
  {
  }

  /**
   * With updates switched on, a found member adds exactly one PATCH to its own
   * subscriber hash, carrying the remote names unless they are null and the
   * type and language interests; the language is English when the remote
   * English flag is true, Nederlands when it is false, and otherwise the one of
   * the previous update.
   */
  lemma StepUpdates(env: Env, s: State, n: Normalized)
    requires s.failure.None? && n.contact.Some? && env.config.updateEnabled
    requires env.lookup(SubscriberHash(env, n.contact.value.email)).Some?
    requires env.config.englishId in env.lookup(SubscriberHash(env, n.contact.value.email)).value.interests
    requires
      var hit := env.lookup(SubscriberHash(env, n.contact.value.email)).value;
      hit.interests[env.config.englishId].Flag? || s.taalset.Some?
    ensures
      var c := n.contact.value;
      var hash := env.md5(Lower(c.email));
      var hit := env.lookup(hash).value;
      var flag := hit.interests[env.config.englishId];
      var lang := if flag.Flag? then (if flag.b then env.config.englishId else env.config.nederlandsId)
                  else s.taalset.value;
      var r := Step(env, s, n);
      && r.fouten == s.fouten + n.log
      && r.cnt == s.cnt + 1 && r.updated == s.updated + 1
      && r.createBatch == s.createBatch && r.created == s.created
      && r.taalset == Some(lang) && r.failure.None?
      && |r.updateBatch| == |s.updateBatch| + 1 && r.updateBatch[..|s.updateBatch|] == s.updateBatch
      && var op := r.updateBatch[|s.updateBatch|];
      && op.verb == PATCH && op.path == "/lists/" + env.config.listId + "/members/" + hash
      && op.operationId == "update_batch"
      && op.body.emailAddress == c.email && op.body.status.None?
      && (hit.fname.Null? ==> op.body.fname == c.firstName)
      && (hit.fname.Name? ==> op.body.fname == hit.fname.text)
      && (hit.fname.Absent? ==> op.body.fname == "")
      && (hit.lname.Null? ==> op.body.lname == c.lastName)
      && (hit.lname.Name? ==> op.body.lname == hit.lname.text)
      && (hit.lname.Absent? ==> op.body.lname == "")
      && op.body.contactType == TypeName(env.contactType)
      && op.body.interests == map[TypeInterest(env.config, env.contactType) := true, lang := true]
  {
    var r := Step(env, s, n);
    assert r.updateBatch[..|s.updateBatch|] == s.updateBatch;
  }

  /**
   * A run stops only at a found member with updates on, when the English
   * interest is missing, or is not a boolean before any update chose a language;
   * the failing row still adds its log and counts, but no operation.
   */
  lemma StepFails(env: Env, s: State, n: Normalized)
    requires s.failure.None? && Step(env, s, n).failure.Some?
    ensures n.contact.Some? && env.config.updateEnabled
    ensures
      var hit := env.lookup(SubscriberHash(env, n.contact.value.email));
      && hit.Some?
      && (env.config.englishId !in hit.value.interests
          || (hit.value.interests[env.config.englishId].Other? && s.taalset.None?))
    ensures
      var r := Step(env, s, n);
      && r.createBatch == s.createBatch && r.updateBatch == s.updateBatch
      && r.created == s.created && r.updated == s.updated
  {
  }

  /**
   * Two addresses that differ only in letter case are both kept or both
   * rejected, and address the same member.
   */
  lemma SameMemberForCase(env: Env, a: string, b: string)
    requires Lower(a) == Lower(b)
    ensures IsValidEmail(a) == IsValidEmail(b)
    ensures MembersPath(env.config) + SubscriberHash(env, a) == MembersPath(env.config) + SubscriberHash(env, b)
  {
    CaseInsensitive(a, b);
  }

  /** Once the English flag is a boolean, the language follows it and not the previous choice. */
  lemma LanguageFollowsFlag(cfg: Config, interests: map<string, InterestValue>, prev: Option<string>)
    requires cfg.englishId != cfg.nederlandsId
    requires cfg.englishId in interests && interests[cfg.englishId].Flag?
    ensures ChooseLanguage(cfg, interests, prev) == Chosen(cfg.englishId) <==> interests[cfg.englishId].b
    ensures ChooseLanguage(cfg, interests, prev) == Chosen(cfg.nederlandsId) <==> !interests[cfg.englishId].b
  {
  }

  // ---- the whole loop -------------------------------------------------------

  /** Reference: the create batch a completed run builds, row by row. */
  function Creates(env: Env, ns: seq<Normalized>): seq<Operation>
    decreases |ns|
  {
    if ns == [] then [] else Creates(env, ns[..|ns| - 1]) + CreateOf(env, ns[|ns| - 1])
  }

  /** Reference: the update paths a completed run produces, row by row. */
  function UpdatePaths(env: Env, ns: seq<Normalized>): seq<string>
    decreases |ns|
  {
    if ns == [] then [] else UpdatePaths(env, ns[..|ns| - 1]) + UpdatePathOf(env, ns[|ns| - 1])
  }

  /** Reference: the logs of all rows, in row order. */
  function Logs(ns: seq<Normalized>): seq<string>
    decreases |ns|
  {
    if ns == [] then [] else Logs(ns[..|ns| - 1]) + ns[|ns| - 1].log
  }

  /** A failure is final: the rows after it change nothing. */
  lemma {:induction false} RunStopsAtFailure(env: Env, s: State, ns: seq<Normalized>, i: nat)
    requires i <= |ns| && Run(env, s, ns[..i]).failure.Some?
    ensures Run(env, s, ns) == Run(env, s, ns[..i])
    decreases |ns|
  {
    if i < |ns| {
      var m := |ns| - 1;
      assert ns[..m][..i] == ns[..i];
      RunStopsAtFailure(env, s, ns[..m], i);
    } else {
      assert ns[..i] == ns;
    }
  }

  /**
   * The counters match the batches, the update batch only grows, and a run that
   * completes has counted every row, kept or rejected.
   */
  lemma {:induction false} RunCounts(env: Env, s: State, ns: seq<Normalized>)
    requires s.failure.None?
    ensures
      var r := Run(env, s, ns);
      && |r.createBatch| + s.created == |s.createBatch| + r.created
      && |r.updateBatch| + s.updated == |s.updateBatch| + r.updated
      && s.updateBatch <= r.updateBatch
      && r.cnt <= s.cnt + |ns|
      && (r.failure.None? ==> r.cnt == s.cnt + |ns|)
    decreases |ns|
  {
    if ns != [] {
      RunCounts(env, s, ns[..|ns| - 1]);
    }
  }

  /**
   * A run that completes builds the create batch of `Creates`, the update paths
   * of `UpdatePaths` and the log of `Logs`, each in row order after what it
   * started with.
   */
  lemma {:induction false} RunBuilds(env: Env, s: State, ns: seq<Normalized>)
    requires s.failure.None? && Run(env, s, ns).failure.None?
    ensures
      var r := Run(env, s, ns);
      && r.createBatch == s.createBatch + Creates(env, ns)
      && Paths(r.updateBatch) == Paths(s.updateBatch) + UpdatePaths(env, ns)
      && r.fouten == s.fouten + Logs(ns)
    decreases |ns|
  {
    if ns != [] {
      var m := |ns| - 1;
      RunBuilds(env, s, ns[..m]);
      var p := Run(env, s, ns[..m]);
      assert p.createBatch + CreateOf(env, ns[m]) == s.createBatch + Creates(env, ns);
      assert Paths(p.updateBatch) + UpdatePathOf(env, ns[m]) == Paths(s.updateBatch) + UpdatePaths(env, ns);
      assert p.fouten + ns[m].log == s.fouten + Logs(ns);
    }
  }

  /** With updates switched off a run always completes and leaves the update batch alone. */
  lemma {:induction false} RunWithoutUpdates(env: Env, s: State, ns: seq<Normalized>)
    requires s.failure.None? && !env.config.updateEnabled
    ensures Run(env, s, ns).failure.None?
    ensures Run(env, s, ns).updateBatch == s.updateBatch && Run(env, s, ns).updated == s.updated
    decreases |ns|
  {
    if ns != [] {
      RunWithoutUpdates(env, s, ns[..|ns| - 1]);
    }
  }
}
