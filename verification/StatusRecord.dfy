/**
  The status record of one entry: what each recorded step writes, when the
  entry is shown Healthy, and what that says about the steps that were
  recorded.
 */
module StatusRecord {
  import opened Options

  /** What is kept of a certificate that was read and validated. */
  datatype Info = Info(fingerprint: string, digest: string)

  datatype Query = Query(status: Health, inProgress: bool)

  /** What else the record of a query says; the status of the entry does not depend on it. */
  datatype Report = Report(
    lastAttempt: Option<nat>,
    lastSuccess: Option<nat>,
    nextAttempt: Option<nat>,
    latency: int,
    httpStatus: int,
    failureKind: string,
    message: string)

  /** The error of a query that failed: one of the client's own, or any other. */
  datatype QueryError = FetchError(kind: string, httpStatus: int) | OtherError

  datatype Health = Healthy | Error | Unknown | Disabled

  /** The fields that the status depends on; an error is its message. */
  datatype View = View(
    enabled: bool,
    sourceInfo: Option<Info>,
    sourceDigest: string,
    destinationDigest: string,
    destinationRead: bool,        // LastDestinationValidation is set
    synced: bool,                 // LastSuccessfulSync is set
    sourceError: Option<string>,
    destinationError: Option<string>,
    syncError: Option<string>,
    watcherError: Option<string>,
    query: Option<Query>)

  datatype Event =
    | QueryBegun
    | QueryEnded(failed: bool)
    | Synced(info: Option<Info>, result: Option<Info>, destination: Option<Info>, destinationErr: Option<string>, syncErr: Option<string>)
    | Validated(info: Option<Info>, err: Option<string>)

  /**
    What the callers pass: a validated certificate has a digest; a sync or a
    validation without one carries an error; the destination is read when the
    source was, and only an unresolvable directory is an error without it.
   */
  predicate Sensible(e: Event) {
    match e
    case QueryBegun => true
    case QueryEnded(_) => true
    case Synced(info, _, destination, destinationErr, syncErr) =>
      && (info.Some? ==> info.value.digest != "" && (destination.Some? <==> destinationErr.None?))
      && (info.None? ==> syncErr.Some? && destination.None?)
      && (destination.Some? ==> destination.value.digest != "")
    case Validated(info, err) => (info.Some? <==> err.None?) && (info.Some? ==> info.value.digest != "")
  }

  function Begin(enabled: bool): View {
    View(enabled, None, "", "", false, false, None, None, None, None, None)
  }

  /** A sync that got no source: an unresolvable destination, or a source that could not be read. */
  function WithoutSource(v: View, destinationErr: Option<string>, syncErr: Option<string>): View {
    if destinationErr.Some? then v.(destinationRead := true, destinationError := destinationErr)
    else v.(sourceError := syncErr)
  }

  function WithSource(v: View, info: Info): View {
    v.(sourceError := None, sourceDigest := info.digest)
  }

  function WithDestination(v: View, destination: Option<Info>, destinationErr: Option<string>): View {
    v.(destinationRead := true, destinationError := destinationErr,
       destinationDigest := if destinationErr.None? && destination.Some? then destination.value.digest else v.destinationDigest)
  }

  /** A sync without an error counts, and lends its digest to a destination that was never read. */
  function Completed(v: View, result: Option<Info>, syncErr: Option<string>): View {
    if syncErr.Some? || result.None? then v
    else v.(synced := true, destinationDigest := if v.destinationDigest == "" then result.value.digest else v.destinationDigest)
  }

  function Next(v: View, e: Event): View {
    match e
    case QueryBegun =>
      v.(query := Some(Query(if v.query.Some? then v.query.value.status else Unknown, true)))
    case QueryEnded(failed) =>
      v.(query := Some(Query(if failed then Error else Healthy, false)))
    case Synced(info, result, destination, destinationErr, syncErr) =>
      var w := v.(syncError := syncErr, sourceInfo := info);
      if info.None? then WithoutSource(w, destinationErr, syncErr)
      else Completed(WithDestination(WithSource(w, info.value), destination, destinationErr), result, syncErr)
    case Validated(info, err) =>
      v.(sourceError := err, sourceInfo := info,
         sourceDigest := if info.Some? then info.value.digest else v.sourceDigest)
  }

  function After(v: View, log: seq<Event>): View {
    if log == [] then v else Next(After(v, log[..|log| - 1]), log[|log| - 1])
  }

  function Shown(v: View): Health {
    if !v.enabled then Disabled
    else if v.query.Some? && v.query.value.status == Error then Error
    else if v.watcherError.Some? then Error
    else if v.syncError.Some? then Error
    else if v.sourceError.Some? then Error
    else if v.destinationError.Some? then Error
    else if v.sourceInfo.Some? && v.destinationRead && v.sourceDigest == v.destinationDigest then Healthy
    else Unknown
  }

  // ---------------------------------------------------------------- the log, read back

  /** The last sync attempt that was recorded. */
  function LastSync(log: seq<Event>): Option<Event> {
    if log == [] then None
    else if log[|log| - 1].Synced? then Some(log[|log| - 1])
    else LastSync(log[..|log| - 1])
  }

  /** The last step that looked at the source: a sync attempt or a validation. */
  function LastLook(log: seq<Event>): Option<Event> {
    if log == [] then None
    else if log[|log| - 1].Synced? || log[|log| - 1].Validated? then Some(log[|log| - 1])
    else LastLook(log[..|log| - 1])
  }

  /** The outcome of the last query that ended. */
  function LastQueryFailed(log: seq<Event>): bool {
    if log == [] then false
    else if log[|log| - 1].QueryEnded? then log[|log| - 1].failed
    else LastQueryFailed(log[..|log| - 1])
  }

  /** Whether the last step that judged the source refused it: a directory that does not resolve is no judgement. */
  function SourceRefused(log: seq<Event>): bool {
    if log == [] then false
    else
      match log[|log| - 1]
      case Validated(_, err) => err.Some?
      case Synced(info, _, _, destinationErr, _) =>
        info.None? && (destinationErr.None? || SourceRefused(log[..|log| - 1]))
      case _ => SourceRefused(log[..|log| - 1])
  }

  /** The last sync attempt that looked at the destination. */
  function LastArrival(log: seq<Event>): Option<Event> {
    if log == [] then None
    else if Arrives(log[|log| - 1]) then Some(log[|log| - 1])
    else LastArrival(log[..|log| - 1])
  }

  predicate Arrives(e: Event) {
    e.Synced? && (e.info.Some? || e.destinationErr.Some?)
  }

  /**
    What Error stands for: the last query or the last sync attempt failed, the
    source was refused when it was last judged, or the destination could not be
    read when it was last looked at.
   */
  predicate InTrouble(log: seq<Event>) {
    || LastQueryFailed(log)
    || (LastSync(log).Some? && LastSync(log).value.Synced? && LastSync(log).value.syncErr.Some?)
    || SourceRefused(log)
    || (LastArrival(log).Some? && LastArrival(log).value.Synced? && LastArrival(log).value.destinationErr.Some?)
  }

  /** What the key match stands for: the source, when last looked at, had the digest last read back, and no look at the destination failed since. */
  predicate Matched(log: seq<Event>) {
    && LastLook(log).Some? && LastArrival(log).Some?
    && LastArrival(log).value.Synced? && LastArrival(log).value.destination.Some?
    && LookedFine(LastLook(log).value, LastArrival(log).value.destination.value.digest)
  }

  predicate AllSensible(log: seq<Event>) {
    forall i | 0 <= i < |log| :: Sensible(log[i])
  }

  /**
    What Healthy stands for: the last sync attempt succeeded and read back the
    destination, the last look at the source found a valid certificate with
    the digest that was read back, and the last query did not fail.
   */
  predicate InOrder(log: seq<Event>) {
    && LastSync(log).Some? && LastLook(log).Some?
    && LastSync(log).value.Synced?
    && LastSync(log).value.syncErr == None && LastSync(log).value.destination.Some?
    && LookedFine(LastLook(log).value, LastSync(log).value.destination.value.digest)
    && !LastQueryFailed(log)
  }

  predicate LookedFine(look: Event, digest: string) {
    match look
    case Synced(info, _, _, _, _) => info.Some? && info.value.digest == digest
    case Validated(info, _) => info.Some? && info.value.digest == digest
    case _ => false
  }

  /** The fields say what the log says. */
  ghost predicate Reflects(v: View, log: seq<Event>) {
    && v.watcherError == None
    && (v.query.Some? && v.query.value.status == Error <==> LastQueryFailed(log))
    && (v.sourceError.Some? <==> SourceRefused(log))
    && SyncReflected(v, LastSync(log))
    && LookReflected(v, LastLook(log))
    && ArrivalReflected(v, LastArrival(log))
  }

  ghost predicate SyncReflected(v: View, last: Option<Event>) {
    match last
    case None => v.syncError == None && v.destinationError == None && !v.destinationRead
    case Some(e) =>
      && e.Synced? && Sensible(e) && v.syncError == e.syncErr
      && (e.syncErr == None ==>
            && v.destinationRead && v.destinationError == e.destinationErr
            && (e.destination.Some? ==> v.destinationDigest == e.destination.value.digest))
  }

  ghost predicate LookReflected(v: View, last: Option<Event>) {
    match last
    case None => v.sourceInfo == None && v.sourceError == None
    case Some(e) => Sensible(e) && LookSeen(v, e)
  }

  ghost predicate ArrivalReflected(v: View, last: Option<Event>) {
    match last
    case None => !v.destinationRead && v.destinationError == None
    case Some(e) =>
      && Arrives(e) && Sensible(e) && v.destinationRead && v.destinationError == e.destinationErr
      && (e.destination.Some? ==> v.destinationDigest == e.destination.value.digest)
  }

  predicate LookSeen(v: View, e: Event) {
    match e
    case Synced(info, _, _, _, syncErr) =>
      v.sourceInfo == info && (info.Some? ==> v.sourceError == None && v.sourceDigest == info.value.digest)
    case Validated(info, err) =>
      v.sourceInfo == info && v.sourceError == err && (info.Some? ==> v.sourceDigest == info.value.digest)
    case _ => false
  }

  lemma OneMore(log: seq<Event>, e: Event)
    ensures var more := log + [e];
            && LastSync(more) == (if e.Synced? then Some(e) else LastSync(log))
            && LastLook(more) == (if e.Synced? || e.Validated? then Some(e) else LastLook(log))
            && LastQueryFailed(more) == (if e.QueryEnded? then e.failed else LastQueryFailed(log))
            && LastArrival(more) == (if Arrives(e) then Some(e) else LastArrival(log))
            && (SourceRefused(more) <==>
                match e
                case Validated(_, err) => err.Some?
                case Synced(info, _, _, destinationErr, _) => info.None? && (destinationErr.None? || SourceRefused(log))
                case _ => SourceRefused(log))
  {
    var more := log + [e];
    assert more[..|log|] == log && more[|log|] == e;
  }

  /** One more step, and the fields still say what the log says. */
  lemma StepReflected(v: View, log: seq<Event>, e: Event)
    requires Reflects(v, log) && Sensible(e)
    ensures Reflects(Next(v, e), log + [e]) && Next(v, e).enabled == v.enabled
  {
    OneMore(log, e);
    SyncStays(v, LastSync(log), e);
    LookStays(v, LastLook(log), e);
    ArrivalStays(v, LastArrival(log), e);
    RefusalStays(v, e);
    assert Next(v, e).query == (match e
                                case QueryBegun => Some(Query(if v.query.Some? then v.query.value.status else Unknown, true))
                                case QueryEnded(failed) => Some(Query(if failed then Error else Healthy, false))
                                case _ => v.query);
    hide LastSync;
    hide LastLook;
    hide LastQueryFailed;
    hide LastArrival;
    hide SourceRefused;
    hide SyncReflected;
    hide LookReflected;
    hide ArrivalReflected;
    hide Sensible;
    assert Next(v, e).watcherError == v.watcherError && Next(v, e).enabled == v.enabled;
    hide Next;
  }

  lemma SyncStays(v: View, last: Option<Event>, e: Event)
    requires SyncReflected(v, last) && Sensible(e)
    ensures SyncReflected(Next(v, e), if e.Synced? then Some(e) else last)
  {
  }

  lemma LookStays(v: View, last: Option<Event>, e: Event)
    requires LookReflected(v, last) && Sensible(e)
    ensures LookReflected(Next(v, e), if e.Synced? || e.Validated? then Some(e) else last)
  {
  }

  lemma ArrivalStays(v: View, last: Option<Event>, e: Event)
    requires ArrivalReflected(v, last) && Sensible(e)
    ensures ArrivalReflected(Next(v, e), if Arrives(e) then Some(e) else last)
  {
  }

  lemma RefusalStays(v: View, e: Event)
    requires Sensible(e)
    ensures Next(v, e).sourceError.Some? <==>
            match e
            case Validated(_, err) => err.Some?
            case Synced(info, _, _, destinationErr, _) => info.None? && (destinationErr.None? || v.sourceError.Some?)
            case _ => v.sourceError.Some?
  {
  }

  lemma {:induction false} LogReflected(enabled: bool, log: seq<Event>)
    requires AllSensible(log)
    ensures Reflects(After(Begin(enabled), log), log) && After(Begin(enabled), log).enabled == enabled
  {
    if log != [] {
      var n := |log| - 1;
      var before := log[..n];
      var v := After(Begin(enabled), before);
      LogReflected(enabled, before);
      assert Sensible(log[n]);
      assert After(Begin(enabled), log) == Next(v, log[n]);
      assert log == before + [log[n]];
      hide Begin;
      hide After;
      hide Reflects;
      StepReflected(v, before, log[n]);
    }
  }

  /**
    After every sequence of recorded steps, the entry is shown Healthy exactly
    when it is enabled and the log is in order.
   */
  lemma HealthyExactly(enabled: bool, log: seq<Event>)
    requires AllSensible(log)
    ensures Shown(After(Begin(enabled), log)) == Healthy <==> enabled && InOrder(log)
  {
    LogReflected(enabled, log);
  }

  /** It is shown as an error exactly when it is enabled and the log shows trouble, and as disabled exactly when it is. */
  lemma ErrorExactly(enabled: bool, log: seq<Event>)
    requires AllSensible(log)
    ensures Shown(After(Begin(enabled), log)) == Error <==> enabled && InTrouble(log)
    ensures Shown(After(Begin(enabled), log)) == Disabled <==> !enabled
    ensures Shown(After(Begin(enabled), log)) == Unknown <==> enabled && !InTrouble(log) && !InOrder(log)
  {
    LogReflected(enabled, log);
  }

  /** The flag beside the status: the destination was read without an error and carries the source's bundle. */
  predicate KeyMatch(v: View) {
    && v.sourceInfo.Some? && v.destinationRead && v.destinationError.None?
    && v.sourceDigest != "" && v.sourceDigest == v.destinationDigest
  }

  /** The flag is shown, whatever the status, exactly when the log has the two digests agree. */
  lemma KeyMatchExactly(enabled: bool, log: seq<Event>)
    requires AllSensible(log)
    ensures KeyMatch(After(Begin(enabled), log)) <==> Matched(log)
  {
    LogReflected(enabled, log);
  }

  /** A Healthy entry always shows a key match: no step can make the two disagree. */
  lemma HealthyMatches(enabled: bool, log: seq<Event>)
    requires AllSensible(log) && Shown(After(Begin(enabled), log)) == Healthy
    ensures KeyMatch(After(Begin(enabled), log))
  {
    LogReflected(enabled, log);
  }

  /** A query that fails, and a sync that fails, keep the entry from Healthy until one of their kind succeeds. */
  lemma FailuresAreNotForgotten(enabled: bool, log: seq<Event>, rest: seq<Event>, e: Event)
    requires AllSensible(log + [e] + rest)
    requires e == QueryEnded(true) || (e.Synced? && e.syncErr.Some?)
    requires forall i | 0 <= i < |rest| :: !(e.QueryEnded? && rest[i].QueryEnded?) && !(e.Synced? && rest[i].Synced?)
    ensures Shown(After(Begin(enabled), log + [e] + rest)) != Healthy
  {
    HealthyExactly(enabled, log + [e] + rest);
    LastOfItsKind(log, e, rest);
  }

  lemma {:induction false} LastOfItsKind(log: seq<Event>, e: Event, rest: seq<Event>)
    requires e.QueryEnded? || e.Synced?
    requires forall i | 0 <= i < |rest| :: !(e.QueryEnded? && rest[i].QueryEnded?) && !(e.Synced? && rest[i].Synced?)
    ensures e.QueryEnded? ==> LastQueryFailed(log + [e] + rest) == e.failed
    ensures e.Synced? ==> LastSync(log + [e] + rest) == Some(e)
    decreases |rest|
  {
    var whole := log + [e] + rest;
    if rest == [] {
      assert whole == log + [e];
    } else {
      var n := |rest| - 1;
      LastOfItsKind(log, e, rest[..n]);
      assert whole[..|whole| - 1] == log + [e] + rest[..n];
      assert whole[|whole| - 1] == rest[n];
    }
  }

  // ---------------------------------------------------------------- the record itself

  class State {
    const enabled: bool
    var sourceInfo: Option<Info>
    var sourceFingerprint: string
    var sourceDigest: string
    var destinationDigest: string
    var destinationFingerprint: string
    var lastSourceValidation: Option<nat>
    var lastDestinationValidation: Option<nat>
    var lastSuccessfulSync: Option<nat>
    var lastAttemptedSync: Option<nat>
    var sourceValidationError: Option<string>
    var destinationValidationError: Option<string>
    var syncError: Option<string>
    var watcherError: Option<string>
    var certWardenQuery: Option<Query>
    var queryReport: Report

    ghost function Seen(): View
      reads this
    {
      View(enabled, sourceInfo, sourceDigest, destinationDigest, lastDestinationValidation.Some?, lastSuccessfulSync.Some?,
           sourceValidationError, destinationValidationError, syncError, watcherError, certWardenQuery)
    }

    constructor (enabled: bool)
      ensures Seen() == Begin(enabled)
    {
      this.enabled := enabled;
      sourceInfo, sourceFingerprint, sourceDigest, destinationDigest, destinationFingerprint := None, "", "", "", "";
      lastSourceValidation, lastDestinationValidation, lastSuccessfulSync, lastAttemptedSync := None, None, None, None;
      sourceValidationError, destinationValidationError, syncError, watcherError := None, None, None, None;
      certWardenQuery, queryReport := None, Report(None, None, None, 0, 0, "", "");
    }

    /** The first section of fetchRemote. */
    method BeginQuery()
      modifies this`certWardenQuery, this`queryReport
      ensures Seen() == Next(old(Seen()), QueryBegun)
      ensures queryReport == old(queryReport).(message := "Querying Cert Warden")
    {
      if certWardenQuery == None {
        certWardenQuery := Some(Query(Unknown, false));
      }
      queryReport := queryReport.(message := "Querying Cert Warden");
      certWardenQuery := Some(certWardenQuery.value.(inProgress := true));
    }

    /** A success wipes the failure kind, a failure keeps the last success, and only the client's errors have a kind. */
    method RecordRemoteQuery(now: nat, autoSync: bool, interval: nat, httpStatus: int, latency: int,
                             err: Option<QueryError>)
      modifies this`certWardenQuery, this`queryReport
      ensures Seen() == Next(old(Seen()), QueryEnded(err.Some?))
      ensures queryReport.lastAttempt == Some(now) && queryReport.latency == latency
      ensures queryReport.nextAttempt == if autoSync then Some(now + interval) else None
      ensures err == None ==>
                && queryReport.lastSuccess == Some(now) && queryReport.httpStatus == httpStatus
                && queryReport.failureKind == "" && queryReport.message == "Certificate bundle downloaded"
      ensures err.Some? ==>
                && queryReport.lastSuccess == old(queryReport.lastSuccess) && queryReport.message == "Cert Warden query failed"
                && match err.value
                   case FetchError(kind, status) => queryReport.failureKind == kind && queryReport.httpStatus == status
                   case OtherError => queryReport.failureKind == old(queryReport.failureKind) && queryReport.httpStatus == httpStatus
    {
      queryReport := queryReport.(lastAttempt := Some(now), httpStatus := httpStatus, latency := latency,
                                  nextAttempt := if autoSync then Some(now + interval) else None);
      if err == None {
        certWardenQuery := Some(Query(Healthy, false));
        queryReport := queryReport.(lastSuccess := Some(now), failureKind := "", message := "Certificate bundle downloaded");
        return;
      }
      certWardenQuery := Some(Query(Error, false));
      queryReport := queryReport.(message := "Cert Warden query failed");
      if err.value.FetchError? {
        queryReport := queryReport.(failureKind := err.value.kind, httpStatus := err.value.httpStatus);
      }
    }

    method RecordValidation(now: nat, info: Option<Info>, err: Option<string>)
      modifies this`lastSourceValidation, this`sourceValidationError, this`sourceInfo, this`sourceFingerprint, this`sourceDigest
      ensures Seen() == Next(old(Seen()), Validated(info, err))
      ensures lastSourceValidation == Some(now)
      ensures sourceFingerprint == if info.Some? then info.value.fingerprint else old(sourceFingerprint)
    {
      lastSourceValidation := Some(now);
      sourceValidationError := err;
      sourceInfo := info;
      if info.Some? {
        sourceFingerprint := info.value.fingerprint;
        sourceDigest := info.value.digest;
      }
    }

    /** recordSync; the destination is present when it was read without an error. */
    method RecordSync(now: nat, info: Option<Info>, result: Option<Info>, destination: Option<Info>,
                      destinationErr: Option<string>, syncErr: Option<string>)
      requires Sensible(Synced(info, result, destination, destinationErr, syncErr))
      modifies this
      ensures Seen() == Next(old(Seen()), Synced(info, result, destination, destinationErr, syncErr))
      ensures lastAttemptedSync == Some(now) && queryReport == old(queryReport)
      ensures lastSourceValidation == if info == None && destinationErr.Some? then old(lastSourceValidation) else Some(now)
      ensures lastDestinationValidation ==
              if info == None && destinationErr == None then old(lastDestinationValidation) else Some(now)
      ensures lastSuccessfulSync ==
              if info.Some? && syncErr == None && result.Some? then Some(now) else old(lastSuccessfulSync)
      ensures sourceFingerprint == if info.Some? then info.value.fingerprint else old(sourceFingerprint)
      ensures var read := if info.Some? && destinationErr == None then destination.value.fingerprint
                          else old(destinationFingerprint);
              destinationFingerprint ==
              if read == "" && info.Some? && syncErr == None && result.Some? then result.value.fingerprint else read
    {
      lastAttemptedSync := Some(now);
      syncError := syncErr;
      sourceInfo := info;
      hide WithoutSource;
      hide WithSource;
      hide WithDestination;
      hide Completed;
      if info == None {
        RecordNoSource(now, destinationErr, syncErr);
        return;
      }
      RecordWithSource(now, info.value, result, destination, destinationErr, syncErr);
    }

    method RecordWithSource(now: nat, info: Info, result: Option<Info>, destination: Option<Info>,
                            destinationErr: Option<string>, syncErr: Option<string>)
      requires destinationErr == None ==> destination.Some?
      modifies this
      ensures Seen() ==
              Completed(WithDestination(WithSource(old(Seen()), info), destination, destinationErr), result, syncErr)
      ensures lastAttemptedSync == old(lastAttemptedSync) && queryReport == old(queryReport)
      ensures lastSourceValidation == Some(now) && lastDestinationValidation == Some(now)
      ensures lastSuccessfulSync == if syncErr == None && result.Some? then Some(now) else old(lastSuccessfulSync)
      ensures sourceFingerprint == info.fingerprint
      ensures var read := if destinationErr == None then destination.value.fingerprint else old(destinationFingerprint);
              destinationFingerprint ==
              if read == "" && syncErr == None && result.Some? then result.value.fingerprint else read
    {
      hide WithSource;
      hide WithDestination;
      hide Completed;
      RecordSource(now, info);
      RecordDestination(now, destination, destinationErr);
      RecordCompletion(now, result, syncErr);
    }

    method RecordNoSource(now: nat, destinationErr: Option<string>, syncErr: Option<string>)
      modifies this`lastDestinationValidation, this`destinationValidationError, this`lastSourceValidation, this`sourceValidationError
      ensures Seen() == WithoutSource(old(Seen()), destinationErr, syncErr)
      ensures lastDestinationValidation == if destinationErr.Some? then Some(now) else old(lastDestinationValidation)
      ensures lastSourceValidation == if destinationErr.Some? then old(lastSourceValidation) else Some(now)
    {
      if destinationErr.Some? {
        lastDestinationValidation := Some(now);
        destinationValidationError := destinationErr;
        return;
      }
      lastSourceValidation := Some(now);
      sourceValidationError := syncErr;
    }

    method RecordSource(now: nat, info: Info)
      modifies this`lastSourceValidation, this`sourceValidationError, this`sourceFingerprint, this`sourceDigest
      ensures Seen() == WithSource(old(Seen()), info)
      ensures lastSourceValidation == Some(now) && sourceFingerprint == info.fingerprint
    {
      lastSourceValidation := Some(now);
      sourceValidationError := None;
      sourceFingerprint := info.fingerprint;
      sourceDigest := info.digest;
    }

    method RecordDestination(now: nat, destination: Option<Info>, destinationErr: Option<string>)
      requires destinationErr == None ==> destination.Some?
      modifies this`lastDestinationValidation, this`destinationValidationError, this`destinationDigest, this`destinationFingerprint
      ensures Seen() == WithDestination(old(Seen()), destination, destinationErr)
      ensures lastDestinationValidation == Some(now)
      ensures destinationFingerprint ==
              if destinationErr == None then destination.value.fingerprint else old(destinationFingerprint)
    {
      lastDestinationValidation := Some(now);
      destinationValidationError := destinationErr;
      if destinationErr == None {
        destinationDigest := destination.value.digest;
        destinationFingerprint := destination.value.fingerprint;
      }
    }

    method RecordCompletion(now: nat, result: Option<Info>, syncErr: Option<string>)
      modifies this`lastSuccessfulSync, this`destinationDigest, this`destinationFingerprint
      ensures Seen() == Completed(old(Seen()), result, syncErr)
      ensures lastSuccessfulSync == if syncErr == None && result.Some? then Some(now) else old(lastSuccessfulSync)
      ensures destinationFingerprint ==
              if old(destinationFingerprint) == "" && syncErr == None && result.Some? then result.value.fingerprint
              else old(destinationFingerprint)
    {
      if syncErr.Some? || result == None {
        return;
      }
      lastSuccessfulSync := Some(now);
      if destinationDigest == "" {
        destinationDigest := result.value.digest;
      }
      if destinationFingerprint == "" {
        destinationFingerprint := result.value.fingerprint;
      }
    }

    /** The status switch of ToCertificateStatus, and the key-match flag beside it. */
    method ToCertificateStatus() returns (status: Health, keyMatch: bool)
      ensures status == Shown(Seen())
      ensures keyMatch <==> KeyMatch(Seen())
    {
      keyMatch := sourceInfo.Some? && lastDestinationValidation.Some? && destinationValidationError == None
                  && sourceDigest != "" && sourceDigest == destinationDigest;
      if !enabled {
        status := Disabled;
      } else if certWardenQuery.Some? && certWardenQuery.value.status == Error {
        status := Error;
      } else if watcherError.Some? || syncError.Some? || sourceValidationError.Some? || destinationValidationError.Some? {
        status := Error;
      } else if sourceInfo.Some? && lastDestinationValidation.Some? && sourceDigest == destinationDigest {
        status := Healthy;
      } else {
        status := Unknown;
      }
    }
  }
}
