/**
 * The updater object: its error log, its two batches, the ids of the batches it
 * submitted and the mode it runs in, changed in place by cleaning a row,
 * processing the rows, starting a run and checking the batches' status.
 */
module Updater {
  import opened Wrappers
  import opened Strings
  import opened Cells
  import opened PyDict
  import opened Email
  import opened Normalizer
  import opened Remote
  import opened Reconcile

  /** What check_batch_status shows: nothing in debug mode, a status label, or an error. */
  datatype StatusReport = DebugUnavailable | Shown(text: string) | CheckFailed

  /** The status lines for the batches whose ids are set, create first. */
  function StatusMessages(jobs: seq<Job>, createId: Option<JobId>, updateId: Option<JobId>): seq<string>
    requires createId.Some? ==> createId.value < |jobs|
    requires updateId.Some? ==> updateId.value < |jobs|
  {
    (if createId.Some? then ["New members batch: " + jobs[createId.value].status] else [])
    + (if updateId.Some? then ["Updates batch: " + jobs[updateId.value].status] else [])
  }

  /** " | ".join(messages), or the fallback text when there are none. */
  function Label(messages: seq<string>): string
    decreases |messages|
  {
    if messages == [] then "No batch operations found"
    else if |messages| == 1 then messages[0]
    else messages[0] + " | " + Label(messages[1..])
  }

  /** The batch ids that are set, in the order they are polled. */
  function SetIds(createId: Option<JobId>, updateId: Option<JobId>): seq<JobId> {
    (if createId.Some? then [createId.value] else []) + (if updateId.Some? then [updateId.value] else [])
  }

  /** The jobs a completed run submits: each batch that is non-empty, create before update. */
  function Submitted(createBatch: seq<Operation>, updateBatch: seq<Operation>): seq<Job> {
    (if createBatch != [] then [Job(createBatch, "pending")] else [])
    + (if updateBatch != [] then [Job(updateBatch, "pending")] else [])
  }

  /** Builds the lower-cased dict of cleaned values one column at a time, in row order. */
  method LowerKeys(row: Row) returns (d: Dict)
    ensures d == Lowered(row)
  {
    d := [];
    for j := 0 to |row|
      invariant d == Lowered(row[..j])
    {
      assert row[..j + 1][..j] == row[..j];
      d := Put(d, Lower(row[j].0), SafeStr(row[j].1));
    }
    assert row[..|row|] == row;
  }

  /** The alias statements of cleancontact, in their order. */
  method ApplyAliases(d0: Dict) returns (d: Dict)
    ensures d == Aliased(d0)
  {
    d := ApplyEnglishAliases(d0);
    d := ApplyDutchAliases(d);
  }

  method ApplyEnglishAliases(d0: Dict) returns (d: Dict)
    ensures d == EnglishAliases(d0)
  {
    d := d0;
    if Has(d, "prefix") { d := Put(d, "voorvoegsels", Get(d, "prefix").value); }
    assert d == Copy(d0, "prefix", "voorvoegsels");
    ghost var d1 := d;
    if Has(d, "first name") { d := Put(d, "roepnaam", Get(d, "first name").value); }
    assert d == Copy(d1, "first name", "roepnaam");
    ghost var d2 := d;
    if Has(d, "last name") { d := Put(d, "achternaam", Get(d, "last name").value); }
    assert d == Copy(d2, "last name", "achternaam");
    ghost var d3 := d;
    if Has(d, "name") { d := Put(d, "achternaam", Get(d, "name").value); }
    assert d == Copy(d3, "name", "achternaam");
  }

  method ApplyDutchAliases(d0: Dict) returns (d: Dict)
    ensures d == DutchAliases(d0)
  {
    d := d0;
    if Has(d, "voorvoegsel") { d := Put(d, "voorvoegsels", Get(d, "voorvoegsel").value); }
    assert d == Copy(d0, "voorvoegsel", "voorvoegsels");
    ghost var d5 := d;
    if Has(d, "voornaam") {
      d := Put(d, "roepnaam", Get(d, "voornaam").value);
    } else if Has(d, "voorletters") {
      d := Put(d, "roepnaam", Get(d, "voorletters").value);
    }
    assert d == if Has(d5, "voornaam") then Copy(d5, "voornaam", "roepnaam")
                else Copy(d5, "voorletters", "roepnaam");
    ghost var d6 := d;
    if Has(d, "naam") { d := Put(d, "achternaam", Get(d, "naam").value); }
    assert d == Copy(d6, "naam", "achternaam");
  }

  /** The value of the first entry whose key names the e-mail column, scanning in order. */
  method FindEmailValue(d: Dict) returns (v: Option<string>)
    ensures v == EmailField(d)
  {
    v := None;
    var k := 0;
    while k < |d| && v.None?
      invariant 0 <= k <= |d|
      invariant v.None? ==> forall m :: 0 <= m < k ==> !IsEmailKey(d[m].0)
      invariant v.Some? ==>
        && 0 < k && IsEmailKey(d[k - 1].0) && v == Some(d[k - 1].1)
        && forall m :: 0 <= m < k - 1 ==> !IsEmailKey(d[m].0)
    {
      if IsEmailKey(d[k].0) {
        v := Some(d[k].1);
      }
      k := k + 1;
    }
    if v.Some? {
      FirstEmailKeyAt(Keys(d), k - 1);
      FindAt(d, d[k - 1].0, k - 1);
    }
  }

  class Updater {
    const config: Config
    var contactType: ContactType
    var debugMode: bool
    var fouten: seq<string>
    var createBatch: seq<Operation>
    var updateBatch: seq<Operation>
    var createId: Option<JobId>
    var updateId: Option<JobId>

    /** A fresh updater: empty log and batches, no batch submitted yet. */
    constructor (config: Config, contactType: ContactType, debugMode: bool)
      ensures this.config == config && this.contactType == contactType && this.debugMode == debugMode
      ensures fouten == [] && createBatch == [] && updateBatch == []
      ensures createId.None? && updateId.None?
    {
      this.config := config;
      this.contactType := contactType;
      this.debugMode := debugMode;
      fouten := [];
      createBatch := [];
      updateBatch := [];
      createId := None;
      updateId := None;
    }

    /** cleancontact: builds the cleaned dict in place and appends its warnings and error. */
    method CleanContact(row: Row, index: nat) returns (contact: Option<Contact>)
      modifies this`fouten
      ensures fouten == old(fouten) + Normalize(row, index).log
      ensures contact == Normalize(row, index).contact
    {
      var d := LowerKeys(row);
      d := ApplyAliases(d);
      contact := FinishContact(d, index);
    }

    /** cleancontact after the aliases: e-mail, missing names, prefix, validation. */
    method FinishContact(d0: Dict, index: nat) returns (contact: Option<Contact>)
      modifies this`fouten
      ensures fouten == old(fouten) + Finish(d0, index).log
      ensures contact == Finish(d0, index).contact
    {
      var emailValue := FindEmailValue(d0);
      var email := if emailValue.Some? && emailValue.value != "" then SafeStr(Text(emailValue.value)) else "";
      assert email == CleanedEmail(d0);
      ghost var first := GetOr(d0, "roepnaam", "");
      ghost var last := GetOr(d0, "achternaam", "");
      ghost var prefix := GetOr(d0, "voorvoegsels", "");
      FilledKeysDistinct();
      var d := Put(d0, "e-mailadres", email);
      GetOrPutOther(d0, "e-mailadres", email, "roepnaam", "");
      GetOrPutOther(d0, "e-mailadres", email, "achternaam", "");
      GetOrPutOther(d0, "e-mailadres", email, "voorvoegsels", "");
      d := FillMissingNames(d);
      ghost var warnings := NameWarnings(email, first, last);
      assert fouten == old(fouten) + warnings;

      if GetOr(d, "voorvoegsels", "") != "" {
        ghost var d3 := d;
        d := Put(d, "achternaam", GetOr(d, "voorvoegsels", "") + " " + GetOr(d, "achternaam", ""));
        GetOrPutOther(d3, "achternaam", prefix + " " + last, "e-mailadres", "");
        GetOrPutOther(d3, "achternaam", prefix + " " + last, "roepnaam", "");
      }
      assert GetOr(d, "e-mailadres", "") == email && GetOr(d, "roepnaam", "") == first;
      assert GetOr(d, "achternaam", "") == if prefix != "" then prefix + " " + last else last;

      if !IsValidEmail(GetOr(d, "e-mailadres", "")) {
        AppendAssoc(old(fouten), warnings, [InvalidEmailError(index)]);
        fouten := fouten + [InvalidEmailError(index)];
        return None;
      }
      return Some(Contact(GetOr(d, "roepnaam", ""), GetOr(d, "achternaam", ""), GetOr(d, "e-mailadres", "")));
    }

    /** An empty first or last name is set to "" and logged, first name first. */
    method FillMissingNames(d0: Dict) returns (d: Dict)
      modifies this`fouten
      ensures fouten == old(fouten) + NameWarnings(GetOr(d0, "e-mailadres", ""),
                                                   GetOr(d0, "roepnaam", ""), GetOr(d0, "achternaam", ""))
      ensures GetOr(d, "e-mailadres", "") == GetOr(d0, "e-mailadres", "")
      ensures GetOr(d, "roepnaam", "") == GetOr(d0, "roepnaam", "")
      ensures GetOr(d, "achternaam", "") == GetOr(d0, "achternaam", "")
      ensures GetOr(d, "voorvoegsels", "") == GetOr(d0, "voorvoegsels", "")
    {
      ghost var email := GetOr(d0, "e-mailadres", "");
      ghost var first := GetOr(d0, "roepnaam", "");
      ghost var last := GetOr(d0, "achternaam", "");
      FilledKeysDistinct();
      d := d0;
      if GetOr(d, "roepnaam", "") == "" {
        d := Put(d, "roepnaam", "");
        GetOrPutOther(d0, "roepnaam", "", "e-mailadres", "");
        GetOrPutOther(d0, "roepnaam", "", "achternaam", "");
        GetOrPutOther(d0, "roepnaam", "", "voorvoegsels", "");
        fouten := fouten + [FirstNameWarning(GetOr(d, "e-mailadres", ""))];
      }
      ghost var d1 := d;
      ghost var firstWarning := if first == "" then [FirstNameWarning(email)] else [];
      assert fouten == old(fouten) + firstWarning;
      if GetOr(d, "achternaam", "") == "" {
        d := Put(d, "achternaam", "");
        GetOrPutOther(d1, "achternaam", "", "e-mailadres", "");
        GetOrPutOther(d1, "achternaam", "", "roepnaam", "");
        GetOrPutOther(d1, "achternaam", "", "voorvoegsels", "");
        AppendAssoc(old(fouten), firstWarning, [LastNameWarning(email)]);
        fouten := fouten + [LastNameWarning(GetOr(d, "e-mailadres", ""))];
      }
    }

    /**
     * The loop body of process_contacts for a kept contact: hash the lower-cased
     * address, look the member up, and queue a create for an unknown member or,
     * with updates on, an update for a known one.
     */
    method Enqueue(c: Contact, md5: string -> string, lookup: string -> Option<Snapshot>,
                   ghost cnt: nat, created: nat, updated: nat, taalset: Option<string>)
      returns (created': nat, updated': nat, taalset': Option<string>, failure: Option<Failure>)
      modifies this`createBatch, this`updateBatch
      ensures
        var s := State(fouten, old(createBatch), old(updateBatch), cnt, created, updated, taalset, None);
        var r := Dispatch(Env(config, contactType, md5, lookup), s, c);
        && createBatch == r.createBatch && updateBatch == r.updateBatch
        && created' == r.created && updated' == r.updated && taalset' == r.taalset && failure == r.failure
    {
      var env := Env(config, contactType, md5, lookup);
      created', updated', taalset', failure := created, updated, taalset, None;
      var hash := md5(Lower(c.email));
      var hit := lookup(hash);
      if hit.None? {
        createBatch := createBatch + [CreateOperation(env, c)];
        created' := created + 1;
      } else if config.updateEnabled {
        match ChooseLanguage(config, hit.value.interests, taalset)
        case Fails(f) =>
          failure := Some(f);
        case Chosen(lang) =>
          taalset' := Some(lang);
          updateBatch := updateBatch + [UpdateOperation(env, c, hit.value, lang)];
          updated' := updated + 1;
      }
    }

    /** One pass of process_contacts' loop: clean row `index`, count it, and queue its operation if kept. */
    method ProcessRow(row: Row, index: nat, ghost rows: seq<Row>, md5: string -> string, lookup: string -> Option<Snapshot>,
                      cnt: nat, created: nat, updated: nat, taalset: Option<string>)
      returns (cnt': nat, created': nat, updated': nat, taalset': Option<string>, failure: Option<Failure>)
      requires index < |rows| && rows[index] == row
      modifies this`fouten, this`createBatch, this`updateBatch
      ensures
        var s := State(old(fouten), old(createBatch), old(updateBatch), cnt, created, updated, taalset, None);
        State(fouten, createBatch, updateBatch, cnt', created', updated', taalset', failure)
          == Step(Env(config, contactType, md5, lookup), s, Cleaned(rows)[index])
    {
      CleanedAt(rows, index);
      ghost var fouten0 := fouten;
      var contact := CleanContact(row, index);
      cnt', created', updated', taalset', failure :=
        CountAndQueue(contact, Cleaned(rows)[index], fouten0, md5, lookup, cnt, created, updated, taalset);
    }

    /**
     * The rest of the loop body once the row is cleaned into `n`: count the row
     * and, for a kept contact, queue its operation.
     */
    method CountAndQueue(contact: Option<Contact>, ghost n: Normalized, ghost fouten0: seq<string>,
                         md5: string -> string, lookup: string -> Option<Snapshot>,
                         cnt: nat, created: nat, updated: nat, taalset: Option<string>)
      returns (cnt': nat, created': nat, updated': nat, taalset': Option<string>, failure: Option<Failure>)
      requires contact == n.contact && fouten == fouten0 + n.log
      modifies this`createBatch, this`updateBatch
      ensures
        var s := State(fouten0, old(createBatch), old(updateBatch), cnt, created, updated, taalset, None);
        State(fouten, createBatch, updateBatch, cnt', created', updated', taalset', failure)
          == Step(Env(config, contactType, md5, lookup), s, n)
    {
      ghost var env := Env(config, contactType, md5, lookup);
      ghost var s := State(fouten0, createBatch, updateBatch, cnt, created, updated, taalset, None);
      cnt' := cnt + 1;
      ghost var s1 := s.(fouten := s.fouten + n.log, cnt := cnt + 1);
      created', updated', taalset', failure := created, updated, taalset, None;
      if contact.Some? {
        created', updated', taalset', failure := Enqueue(contact.value, md5, lookup, cnt', created, updated, taalset);
        assert State(fouten, createBatch, updateBatch, cnt', created', updated', taalset', failure)
               == Dispatch(env, s1, n.contact.value);
        StepKept(env, s, n, contact.value);
      } else {
        assert State(fouten, createBatch, updateBatch, cnt', created', updated', taalset', failure) == s1;
        StepRejects(env, s, n);
      }
    }

    /**
     * process_contacts: cleans and dispatches every row in order, stopping at the
     * first failure; a run that completes clears the batch ids and, unless in debug
     * mode, submits the create batch if it holds operations and then the update
     * batch if it does.
     */
    method ProcessContacts(rows: seq<Row>, md5: string -> string, lookup: string -> Option<Snapshot>, service: BatchService)
      returns (cnt: nat, created: nat, updated: nat, failure: Option<Failure>)
      modifies this, service
      ensures
        var r := Run(Env(config, contactType, md5, lookup),
                     Start(old(fouten), old(createBatch), old(updateBatch)), Cleaned(rows));
        && fouten == r.fouten && createBatch == r.createBatch && updateBatch == r.updateBatch
        && cnt == r.cnt && created == r.created && updated == r.updated && failure == r.failure
      ensures contactType == old(contactType) && debugMode == old(debugMode)
      ensures service.polls == old(service.polls)
      ensures failure.Some? ==>
        createId == old(createId) && updateId == old(updateId) && service.jobs == old(service.jobs)
      ensures failure.None? && debugMode ==>
        createId.None? && updateId.None? && service.jobs == old(service.jobs)
      ensures failure.None? && !debugMode ==>
        && service.jobs == old(service.jobs)
             + (if created > 0 then [Job(createBatch, "pending")] else [])
             + (if updated > 0 then [Job(updateBatch, "pending")] else [])
        && createId == (if created > 0 then Some(|old(service.jobs)|) else None)
        && updateId == (if updated > 0 then Some(|old(service.jobs)| + (if created > 0 then 1 else 0)) else None)
    {
      cnt, created, updated, failure := ProcessRows(rows, md5, lookup);
      if failure.None? {
        SubmitBatches(created, updated, service);
      }
    }

    /** The loop of process_contacts: every row in order until the first failure. */
    method ProcessRows(rows: seq<Row>, md5: string -> string, lookup: string -> Option<Snapshot>)
      returns (cnt: nat, created: nat, updated: nat, failure: Option<Failure>)
      modifies this`fouten, this`createBatch, this`updateBatch
      ensures
        var r := Run(Env(config, contactType, md5, lookup),
                     Start(old(fouten), old(createBatch), old(updateBatch)), Cleaned(rows));
        && fouten == r.fouten && createBatch == r.createBatch && updateBatch == r.updateBatch
        && cnt == r.cnt && created == r.created && updated == r.updated && failure == r.failure
    {
      ghost var env := Env(config, contactType, md5, lookup);
      ghost var s0 := Start(fouten, createBatch, updateBatch);
      ghost var ns := Cleaned(rows);
      cnt, created, updated := 0, 0, 0;
      var taalset: Option<string> := None;
      failure := None;
      var i := 0;
      while i < |rows| && failure.None?
        invariant 0 <= i <= |rows|
        invariant State(fouten, createBatch, updateBatch, cnt, created, updated, taalset, failure)
                  == Run(env, s0, ns[..i])
      {
        ghost var before := State(fouten, createBatch, updateBatch, cnt, created, updated, taalset, failure);
        cnt, created, updated, taalset, failure := ProcessRow(rows[i], i, rows, md5, lookup, cnt, created, updated, taalset);
        assert State(fouten, createBatch, updateBatch, cnt, created, updated, taalset, failure)
               == Step(env, before, ns[i]);
        assert ns[..i + 1][..i] == ns[..i];
        i := i + 1;
      }
      if failure.Some? {
        RunStopsAtFailure(env, s0, ns, i);
      } else {
        assert ns[..i] == ns;
      }
    }

    /**
     * The end of process_contacts: clear the batch ids, then, unless in debug mode,
     * submit the create batch if any member is new and the update batch if any
     * member is updated, in that order, keeping the ids the service returns.
     */
    method SubmitBatches(created: nat, updated: nat, service: BatchService)
      modifies this`createId, this`updateId, service
      ensures service.polls == old(service.polls)
      ensures debugMode ==> createId.None? && updateId.None? && service.jobs == old(service.jobs)
      ensures !debugMode ==>
        && service.jobs == old(service.jobs)
             + (if created > 0 then [Job(createBatch, "pending")] else [])
             + (if updated > 0 then [Job(updateBatch, "pending")] else [])
        && createId == (if created > 0 then Some(|old(service.jobs)|) else None)
        && updateId == (if updated > 0 then Some(|old(service.jobs)| + (if created > 0 then 1 else 0)) else None)
    {
      createId := None;
      updateId := None;
      if !debugMode {
        if created > 0 {
          var id := service.Submit(createBatch);
          createId := Some(id);
        }
        if updated > 0 {
          var id := service.Submit(updateBatch);
          updateId := Some(id);
        }
      }
    }

    /**
     * start_processing: with no rows loaded nothing happens; otherwise the run
     * takes the chosen contact type and mode, starts from an empty log and empty
     * batches, and processes every row. A failed run submits nothing and keeps
     * the old batch ids; a completed run outside debug mode submits exactly the
     * non-empty batches, create before update, and keeps the ids of the new jobs.
     */
    method StartProcessing(rows: seq<Row>, chosenType: ContactType, chosenDebug: bool,
                           md5: string -> string, lookup: string -> Option<Snapshot>, service: BatchService)
      returns (started: bool, failure: Option<Failure>)
      modifies this, service
      ensures rows == [] ==> !started && failure.None? && unchanged(this) && unchanged(service)
      ensures rows != [] ==>
        var r := Run(Env(config, chosenType, md5, lookup), Start([], [], []), Cleaned(rows));
        && started && contactType == chosenType && debugMode == chosenDebug
        && fouten == r.fouten && createBatch == r.createBatch && updateBatch == r.updateBatch
        && failure == r.failure
      ensures service.polls == old(service.polls)
      ensures rows != [] && failure.Some? ==>
        service.jobs == old(service.jobs) && createId == old(createId) && updateId == old(updateId)
      ensures rows != [] && failure.None? && !chosenDebug ==>
        && service.jobs == old(service.jobs) + Submitted(createBatch, updateBatch)
        && createId == (if createBatch != [] then Some(|old(service.jobs)|) else None)
        && updateId == (if updateBatch != [] then Some(|old(service.jobs)| + (if createBatch != [] then 1 else 0)) else None)
      ensures rows != [] && failure.None? && chosenDebug ==>
        service.jobs == old(service.jobs) && createId.None? && updateId.None?
    {
      if rows == [] {
        return false, None;
      }
      contactType := chosenType;
      debugMode := chosenDebug;
      fouten := [];
      updateBatch := [];
      createBatch := [];
      var cnt, created, updated;
      cnt, created, updated, failure := ProcessContacts(rows, md5, lookup, service);
      RunCounts(Env(config, chosenType, md5, lookup), Start([], [], []), Cleaned(rows));
      started := true;
    }

    /**
     * check_batch_status: in debug mode no request is made. Otherwise the set
     * batch ids are polled, create first, until a request fails; a failed request
     * (always so for an unknown id) stops the check with an error, and otherwise
     * the label lists the statuses, or says there are none.
     */
    method CheckBatchStatus(service: BatchService) returns (report: StatusReport)
      modifies service`polls
      ensures debugMode ==> report == DebugUnavailable && service.polls == old(service.polls)
      ensures !debugMode ==>
        var ids := SetIds(createId, updateId);
        && |old(service.polls)| <= |service.polls|
        && service.polls[..|old(service.polls)|] == old(service.polls)
        && var got := service.polls[|old(service.polls)|..];
        && |got| <= |ids|
        && (forall j :: 0 <= j < |got| ==> got[j].id == ids[j])
        && (forall j :: 0 <= j < |got| - 1 ==> got[j].answer.Some?)
        && (forall j :: 0 <= j < |got| && got[j].answer.Some? ==>
              got[j].id < |service.jobs| && got[j].answer.value == service.jobs[got[j].id].status)
        && (report.CheckFailed? <==> got != [] && got[|got| - 1].answer.None?)
        && (!report.CheckFailed? ==>
              && |got| == |ids|
              && (createId.Some? ==> createId.value < |service.jobs|)
              && (updateId.Some? ==> updateId.value < |service.jobs|)
              && report == Shown(Label(StatusMessages(service.jobs, createId, updateId))))
      ensures !debugMode && ((createId.Some? && createId.value >= |service.jobs|)
                             || (updateId.Some? && updateId.value >= |service.jobs|)) ==>
        report.CheckFailed?
    {
      if debugMode {
        return DebugUnavailable;
      }
      var messages: seq<string> := [];
      if createId.Some? {
        var status := service.Poll(createId.value);
        if status.None? {
          return CheckFailed;
        }
        messages := messages + ["New members batch: " + status.value];
      }
      if updateId.Some? {
        var status := service.Poll(updateId.value);
        if status.None? {
          return CheckFailed;
        }
        messages := messages + ["Updates batch: " + status.value];
      }
      report := Shown(Label(messages));
    }
  }
}
