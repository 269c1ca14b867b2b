/**
 * The Dropbox save agent: for every incoming event that carries a file, it asks the
 * store whether the destination path is taken and, following the overwrite mode,
 * uploads the file there, uploads it under a renamed path, or does nothing.
 *
 * The Dropbox client is not modelled: what `find` answers is part of each event
 * (`Event.lookup`), and every `upload` is recorded in `DropboxSaveAgent.uploads`.
 */
module Agents {
  import opened Wrappers
  import opened Text

  const OverwriteOff: string := "off"
  const OverwriteOn: string := "on"
  const OverwriteRename: string := "rename"

  const OverwriteModes: seq<string> := [OverwriteOff, OverwriteOn, OverwriteRename]

  // ---------------------------------------------------------------------------
  // Renaming: RENAME_SUFFIX_REGEX = /_(\d+)\z/ and next_filename
  // ---------------------------------------------------------------------------

  /** The rename-suffix regex matches `name` with its digit group starting at index `k`. */
  predicate SuffixMatchesAt(name: string, k: nat) {
    0 < k < |name| && name[k - 1] == '_' && AllDigits(name[k..])
  }

  /** Where the longest run of digits at the end of `s` starts. */
  function DigitRunStart(s: string): (k: nat)
    ensures k <= |s|
    ensures forall i :: k <= i < |s| ==> IsDigit(s[i])
    ensures 0 < k ==> !IsDigit(s[k - 1])
    decreases |s|
  {
    if s == [] || !IsDigit(s[|s| - 1]) then |s| else DigitRunStart(s[..|s| - 1])
  }

  lemma {:induction false} DigitRunStartIsLeast(s: string, k: nat)
    requires k <= |s| && AllDigits(s[k..])
    ensures DigitRunStart(s) <= k
    decreases |s|
  {
    if k < |s| {
      assert s[..|s| - 1][k..] == s[k..|s| - 1];
      DigitRunStartIsLeast(s[..|s| - 1], k);
    }
  }

  lemma {:induction false} DigitRunStartIsGreatest(s: string, k: nat)
    requires 0 < k <= |s| && !IsDigit(s[k - 1])
    ensures k <= DigitRunStart(s)
    decreases |s|
  {
    if k < |s| && IsDigit(s[|s| - 1]) {
      DigitRunStartIsGreatest(s[..|s| - 1], k);
    }
  }

  /**
   * `name.match(RENAME_SUFFIX_REGEX)` followed by `[1].to_i`: the number in the
   * `_<digits>` suffix of `name`, or None when the regex does not match.
   */
  function RenameSuffix(name: string): Option<nat> {
    var k := DigitRunStart(name);
    if 0 < k < |name| && name[k - 1] == '_' then Some(DigitsValue(name[k..])) else None
  }

  /** Whenever the regex matches at `k`, the captured number is the digits from `k` on. */
  lemma RenameSuffixOfMatch(name: string, k: nat)
    requires SuffixMatchesAt(name, k)
    ensures RenameSuffix(name) == Some(DigitsValue(name[k..]))
  {
    DigitRunStartIsLeast(name, k);
    DigitRunStartIsGreatest(name, k);
  }

  /** There is no captured number exactly when the regex matches nowhere. */
  lemma RenameSuffixAbsent(name: string)
    ensures RenameSuffix(name) == None <==> forall k: nat :: !SuffixMatchesAt(name, k)
  {
    if RenameSuffix(name).Some? {
      assert SuffixMatchesAt(name, DigitRunStart(name));
    }
    forall k: nat | SuffixMatchesAt(name, k) ensures RenameSuffix(name).Some? {
      RenameSuffixOfMatch(name, k);
    }
  }

  /**
   * `next_filename`: the name with `_<N+1>` appended when it ends in `_<N>`, and with
   * `_1` appended otherwise. The old suffix is kept: `report_2` becomes `report_2_3`.
   */
  function NextFilename(name: string): (r: string)
    ensures |name| + 1 < |r| && r[..|name|] == name && r[|name|] == '_'
    ensures SuffixMatchesAt(r, |name| + 1)
  {
    var number := match RenameSuffix(name)
      case Some(n) => n + 1
      case None => 1;
    var r := name + "_" + DecimalString(number);
    assert r[|name| + 1..] == DecimalString(number);
    r
  }

  /** A name without a `_<digits>` suffix gets `_1` appended. */
  lemma NextFilenameWithoutSuffix(name: string)
    requires forall k: nat :: !SuffixMatchesAt(name, k)
    ensures NextFilename(name) == name + "_1"
  {
    RenameSuffixAbsent(name);
  }

  /** A name ending in `_<digits>` gets `_<digits + 1>` appended, the old suffix staying in place. */
  lemma NextFilenameWithSuffix(name: string, k: nat)
    requires SuffixMatchesAt(name, k)
    ensures NextFilename(name) == name + "_" + DecimalString(DigitsValue(name[k..]) + 1)
  {
    RenameSuffixOfMatch(name, k);
  }

  /** The renamed name carries the next number: 1 for a name without suffix, N + 1 after `_N`. */
  lemma NextFilenameIncrements(name: string)
    ensures RenameSuffix(NextFilename(name)) ==
      match RenameSuffix(name)
      case Some(n) => Some(n + 1)
      case None => Some(1)
  {
    var r := NextFilename(name);
    var number := match RenameSuffix(name) case Some(n) => n + 1 case None => 1;
    assert r == name + "_" + DecimalString(number);
    assert r[|name| + 1..] == DecimalString(number);
    RenameSuffixOfMatch(r, |name| + 1);
    DigitsValueOfDecimalString(number);
  }

  /** `next_filename` appends to an existing suffix; it does not replace it. */
  lemma NextFilenameKeepsOldSuffix()
    ensures NextFilename("report_2") == "report_2_3"
    ensures NextFilename("report") == "report_1"
  {
    var name := "report_2";
    assert SuffixMatchesAt(name, 7);
    assert name[7..] == "2";
    assert DigitsValue("2") == 2 by { assert "2"[..0] == ""; }
    NextFilenameWithSuffix(name, 7);
    assert DecimalString(3) == "3";
    forall k: nat ensures !SuffixMatchesAt("report", k) {
      assert forall i :: 0 <= i < 6 ==> "report"[i] != '_';
    }
    NextFilenameWithoutSuffix("report");
  }

  // ---------------------------------------------------------------------------
  // Destination: full_file_path
  // ---------------------------------------------------------------------------

  /**
   * The options as `interpolated` resolves them. The agent resolves them without the
   * event, so they are the same for every event; a record per event is more general.
   */
  datatype Options = Options(path: string, filename: string, overwriteMode: string)

  /** `start_with?('/')`. */
  predicate StartsWithSlash(s: string) {
    |s| > 0 && s[0] == '/'
  }

  /** The directory with a `/` put in front unless it already starts with one. */
  function NormalisedPath(path: string): (p: string)
    ensures StartsWithSlash(p)
    ensures |path| <= |p| <= |path| + 1 && p[|p| - |path|..] == path
  {
    if StartsWithSlash(path) then path else "/" + path
  }

  /** The normalised directory is the shortest string that starts with `/` and ends with the directory. */
  lemma NormalisedPathIsShortest(path: string, q: string)
    requires StartsWithSlash(q) && |path| <= |q| && q[|q| - |path|..] == path
    ensures |NormalisedPath(path)| <= |q|
  {
    if |q| == |path| {
      assert q[|q| - |path|..] == q;
    }
  }

  /** `full_file_path(increment:)`: the directory joined with the (possibly renamed) filename by `/`. */
  function FullFilePath(options: Options, increment: bool): string {
    var filename := if increment then NextFilename(options.filename) else options.filename;
    NormalisedPath(options.path) + "/" + filename
  }

  /**
   * The path starts with `/`, ends with `/` and the filename, and what comes before
   * that `/` is the directory: used as it is when it starts with `/`, else with one `/` in front.
   */
  lemma FullFilePathParts(options: Options, increment: bool)
    ensures var r := FullFilePath(options, increment);
      var filename := if increment then NextFilename(options.filename) else options.filename;
      && StartsWithSlash(r)
      && |r| == |NormalisedPath(options.path)| + 1 + |filename|
      && r[|r| - |filename|..] == filename
      && r[|r| - |filename| - 1] == '/'
      && r[..|r| - |filename| - 1] == NormalisedPath(options.path)
      && (StartsWithSlash(options.path) ==> r[..|options.path|] == options.path)
      && (!StartsWithSlash(options.path) ==> r[1..1 + |options.path|] == options.path)
  {
    var r := FullFilePath(options, increment);
    var filename := if increment then NextFilename(options.filename) else options.filename;
    var p := NormalisedPath(options.path);
    assert r == p + "/" + filename;
    assert r[|r| - |filename|..] == filename;
    assert r[..|r| - |filename| - 1] == p;
  }

  /** The renamed destination extends the plain one, so the two never coincide. */
  lemma RenamedPathExtendsPath(options: Options)
    ensures var plain := FullFilePath(options, false);
      var renamed := FullFilePath(options, true);
      |plain| < |renamed| && renamed[..|plain|] == plain && renamed != plain
  {
    var p := NormalisedPath(options.path);
    var next := NextFilename(options.filename);
    var plain := FullFilePath(options, false);
    var renamed := FullFilePath(options, true);
    assert next == options.filename + next[|options.filename|..];
    assert renamed == plain + next[|options.filename|..];
  }

  /** Nothing but the leading `/` is normalised: a trailing `/` in the directory doubles up. */
  lemma TrailingSlashIsKept()
    ensures FullFilePath(Options("/huginn/", "file", OverwriteOff), false) == "/huginn//file"
    ensures FullFilePath(Options("huginn", "file", OverwriteOff), false) == "/huginn/file"
  {
  }

  // ---------------------------------------------------------------------------
  // Existence check: file_exists?
  // ---------------------------------------------------------------------------

  /** An exception raised by the Dropbox client: a `Dropbox::API::Error` or anything else. */
  datatype RemoteError = ApiError(message: string) | OtherError(message: string)

  /** What `dropbox.find(path)` does: returns metadata, returns nil, or raises. */
  datatype Lookup = Found | FoundNil | Raises(error: RemoteError)

  /** The API errors that `file_exists?` reads as "not there": those whose message contains `409`. */
  predicate IsConflict(error: RemoteError) {
    error.ApiError? && Contains(error.message, "409")
  }

  /** `file_exists?`: whether the destination is taken, or the exception it lets through. */
  function FileExists(lookup: Lookup): (r: Result<bool, RemoteError>)
    ensures r == Ok(true) <==> lookup == Found
    ensures r == Ok(false) <==> lookup == FoundNil || (lookup.Raises? && IsConflict(lookup.error))
    ensures r.Err? <==> lookup.Raises? && !IsConflict(lookup.error)
    ensures r.Err? ==> r.error == lookup.error
  {
    match lookup
    case Found => Ok(true)
    case FoundNil => Ok(false)
    case Raises(error) => if IsConflict(error) then Ok(false) else Err(error)
  }

  /** A 409 error is recognised wherever `409` appears in its message. */
  lemma ConflictAnywhereInMessage(message: string, i: nat)
    requires OccursAt(message, "409", i)
    ensures FileExists(Raises(ApiError(message))) == Ok(false)
    ensures FileExists(Raises(OtherError(message))) == Err(OtherError(message))
  {
    ContainsIffOccurs(message, "409");
  }

  // ---------------------------------------------------------------------------
  // Events: handle_event, handle_overwrite, save_file and receive, as functions
  // ---------------------------------------------------------------------------

  /** What `io.read` returns: the bytes of the file. */
  type Content = seq<bv8>

  /** One call `dropbox.upload(path, content)`. */
  datatype Upload = Upload(path: string, content: Content)

  /**
   * An incoming event: the options as `interpolated` resolves them while it is handled
   * (the same for every event in the agent; a record per event is more general), the
   * file that `get_io` resolves from it (None when there is none), and what
   * `dropbox.find` answers for each path while it is handled.
   */
  datatype Event = Event(options: Options, io: Option<Content>, lookup: string -> Lookup)

  /** The uploads made, in order, and the exception that ended the handling, if any. */
  datatype Effect = Effect(uploads: seq<Upload>, raised: Option<RemoteError>)

  /** The uploads `handle_overwrite` makes when the destination is taken. */
  function OverwriteUploads(options: Options, content: Content): seq<Upload> {
    if options.overwriteMode == OverwriteOff then []
    else if options.overwriteMode == OverwriteOn then [Upload(FullFilePath(options, false), content)]
    else if options.overwriteMode == OverwriteRename then [Upload(FullFilePath(options, true), content)]
    else []
  }

  /** What `handle_event` does with one event. */
  function EventEffect(event: Event): (r: Effect)
    ensures |r.uploads| <= 1
    ensures r.raised.Some? ==> r.uploads == []
    ensures forall u :: u in r.uploads ==> event.io == Some(u.content)
  {
    match event.io
    case None => Effect([], None)
    case Some(content) =>
      match FileExists(event.lookup(FullFilePath(event.options, false)))
      case Err(error) => Effect([], Some(error))
      case Ok(taken) =>
        if taken then Effect(OverwriteUploads(event.options, content), None)
        else Effect([Upload(FullFilePath(event.options, false), content)], None)
  }

  /** The destination is free: `find` returned nil or raised a 409 API error. */
  predicate IsFree(lookup: Lookup) {
    lookup == FoundNil || (lookup.Raises? && IsConflict(lookup.error))
  }

  /** An event without a file is skipped: no upload and no exception, whatever the store says. */
  lemma EventWithoutFile(event: Event)
    requires event.io == None
    ensures EventEffect(event) == Effect([], None)
  {
  }

  /** Every row of the per-event decision table. */
  lemma EventDecisionTable(event: Event)
    requires event.io.Some?
    ensures var options := event.options;
      var path := FullFilePath(options, false);
      var lookup := event.lookup(path);
      var content := event.io.value;
      var r := EventEffect(event);
      && (lookup.Raises? && !IsConflict(lookup.error) ==> r == Effect([], Some(lookup.error)))
      && (IsFree(lookup) ==> r == Effect([Upload(path, content)], None))
      && (lookup == Found && options.overwriteMode == OverwriteOff ==> r == Effect([], None))
      && (lookup == Found && options.overwriteMode == OverwriteOn ==> r == Effect([Upload(path, content)], None))
      && (lookup == Found && options.overwriteMode == OverwriteRename ==>
            r == Effect([Upload(FullFilePath(options, true), content)], None))
      && (lookup == Found && options.overwriteMode !in OverwriteModes ==> r == Effect([], None))
  {
  }

  /** An upload happens exactly when there is a file and either the destination is free or the mode is `on` or `rename`. */
  lemma EventUploadsIff(event: Event)
    ensures var lookup := event.lookup(FullFilePath(event.options, false));
      |EventEffect(event).uploads| == 1 <==>
        event.io.Some? &&
        (IsFree(lookup) || (lookup == Found && event.options.overwriteMode in [OverwriteOn, OverwriteRename]))
  {
  }

  /**
   * The store is consulted once, about the plain destination: answers for any other
   * path, the renamed one included, change nothing.
   */
  lemma EventLooksUpPlainPathOnly(event: Event, other: string -> Lookup)
    requires other(FullFilePath(event.options, false)) == event.lookup(FullFilePath(event.options, false))
    ensures EventEffect(event.(lookup := other)) == EventEffect(event)
  {
  }

  /** An upload goes to the plain destination, or to the renamed one only in `rename` mode over a taken path. */
  lemma EventUploadTarget(event: Event, u: Upload)
    requires u in EventEffect(event).uploads
    ensures var path := FullFilePath(event.options, false);
      u.path == path ||
      (u.path == FullFilePath(event.options, true) && event.options.overwriteMode == OverwriteRename &&
       event.lookup(path) == Found)
  {
  }

  /** The per-event effects of a list of events, one for each, as if each were handled on its own. */
  function EventEffects(events: seq<Event>): (r: seq<Effect>)
    ensures |r| == |events|
    ensures forall i :: 0 <= i < |events| ==> r[i] == EventEffect(events[i])
  {
    seq(|events|, i requires 0 <= i < |events| => EventEffect(events[i]))
  }

  /** Running handlers one after another: their uploads in order, up to and including the first that raises. */
  function Sequenced(effects: seq<Effect>): (r: Effect)
    ensures (forall i :: 0 <= i < |effects| ==> |effects[i].uploads| <= 1) ==> |r.uploads| <= |effects|
    decreases |effects|
  {
    if effects == [] then Effect([], None)
    else if effects[0].raised.Some? then effects[0]
    else
      var rest := Sequenced(effects[1..]);
      Effect(effects[0].uploads + rest.uploads, rest.raised)
  }

  /** Running `a + b` runs `a`, then, unless that raised, `b`. */
  lemma {:induction false} SequencedConcat(a: seq<Effect>, b: seq<Effect>)
    ensures var ra := Sequenced(a);
      Sequenced(a + b) ==
        if ra.raised.Some? then ra
        else Effect(ra.uploads + Sequenced(b).uploads, Sequenced(b).raised)
    decreases |a|
  {
    if a == [] {
      assert a + b == b;
    } else if a[0].raised.Some? {
      assert (a + b)[0] == a[0];
    } else {
      assert (a + b)[0] == a[0];
      assert (a + b)[1..] == a[1..] + b;
      SequencedConcat(a[1..], b);
      var ra, rb, rest := Sequenced(a[1..]), Sequenced(b), Sequenced(a[1..] + b);
      if ra.raised.None? {
        assert a[0].uploads + (ra.uploads + rb.uploads) == (a[0].uploads + ra.uploads) + rb.uploads;
      }
    }
  }

  /** What `receive` does with a list of events: handles each in turn, stopping at the first exception. */
  function ReceiveEffect(events: seq<Event>): (r: Effect)
    ensures |r.uploads| <= |events|
  {
    Sequenced(EventEffects(events))
  }

  /** Receiving `a + b` receives `a`, then, unless that raised, `b`. */
  lemma ReceiveConcat(a: seq<Event>, b: seq<Event>)
    ensures var ra := ReceiveEffect(a);
      ReceiveEffect(a + b) ==
        if ra.raised.Some? then ra
        else Effect(ra.uploads + ReceiveEffect(b).uploads, ReceiveEffect(b).raised)
  {
    assert EventEffects(a + b) == EventEffects(a) + EventEffects(b);
    SequencedConcat(EventEffects(a), EventEffects(b));
  }

  /** A single event is received exactly as `handle_event` handles it. */
  lemma ReceiveOne(event: Event)
    ensures ReceiveEffect([event]) == EventEffect(event)
  {
    var e := EventEffect(event);
    assert EventEffects([event]) == [e];
    assert [e][1..] == [];
    assert Sequenced([]) == Effect([], None);
    assert e.uploads + [] == e.uploads;
    if e.raised.None? {
      assert e == Effect(e.uploads, None);
    }
  }

  /** The first exception ends `receive`: the uploads are those of the events before it, the rest are not looked at. */
  lemma ReceiveStopsAtException(events: seq<Event>, k: nat)
    requires k < |events|
    requires ReceiveEffect(events[..k]).raised == None
    requires EventEffect(events[k]).raised.Some?
    ensures ReceiveEffect(events) == Effect(ReceiveEffect(events[..k]).uploads, EventEffect(events[k]).raised)
  {
    assert events == events[..k] + events[k..];
    ReceiveConcat(events[..k], events[k..]);
  }

  // ---------------------------------------------------------------------------
  // Option validation: validate_options
  // ---------------------------------------------------------------------------

  const PathMessage: string := "path must be present"
  const FilenameMessage: string := "filename must be present"
  const ModeMessage: string := "overwrite_mode must be one of [\"off\", \"on\", \"rename\"]"

  /** `options[key].present?`: the key is set to a string that is not blank. */
  predicate Present(options: map<string, string>, key: string) {
    key in options && !IsBlank(options[key])
  }

  /** `OVERWRITE_MODES.include?(options['overwrite_mode'])`. */
  predicate KnownMode(options: map<string, string>) {
    "overwrite_mode" in options && options["overwrite_mode"] in OverwriteModes
  }

  /** The position of a validation message in the order the checks run. */
  function MessageRank(message: string): nat {
    if message == PathMessage then 0 else if message == FilenameMessage then 1 else 2
  }

  /** The messages `validate_options` adds for the given raw options, in the order it adds them. */
  function OptionErrors(options: map<string, string>): (r: seq<string>)
    ensures PathMessage in r <==> !Present(options, "path")
    ensures FilenameMessage in r <==> !Present(options, "filename")
    ensures ModeMessage in r <==> !KnownMode(options)
    ensures forall m :: m in r ==> m in [PathMessage, FilenameMessage, ModeMessage]
    ensures forall i, j :: 0 <= i < j < |r| ==> MessageRank(r[i]) < MessageRank(r[j])
    ensures r == [] <==> Present(options, "path") && Present(options, "filename") && KnownMode(options)
  {
    (if Present(options, "path") then [] else [PathMessage]) +
    (if Present(options, "filename") then [] else [FilenameMessage]) +
    (if KnownMode(options) then [] else [ModeMessage])
  }

  // ---------------------------------------------------------------------------
  // The agent
  // ---------------------------------------------------------------------------

  /** The agent: its raw options, the validation errors it has collected and the uploads it has made. */
  class DropboxSaveAgent {
    const options: map<string, string>
    var errors: seq<string>
    var uploads: seq<Upload>

    constructor (options: map<string, string>)
      ensures this.options == options && errors == [] && uploads == []
    {
      this.options := options;
      errors := [];
      uploads := [];
    }

    /** `validate_options`: adds one message per failed check, in order. */
    method ValidateOptions()
      modifies this`errors
      ensures errors == old(errors) + OptionErrors(options)
    {
      if !Present(options, "path") {
        errors := errors + [PathMessage];
      }
      if !Present(options, "filename") {
        errors := errors + [FilenameMessage];
      }
      if !KnownMode(options) {
        errors := errors + [ModeMessage];
      }
    }

    /** `receive`: handles the events one after another; an exception stops it and is passed on. */
    method Receive(events: seq<Event>) returns (raised: Option<RemoteError>)
      modifies this`uploads
      ensures uploads == old(uploads) + ReceiveEffect(events).uploads
      ensures raised == ReceiveEffect(events).raised
    {
      raised := None;
      var i := 0;
      while i < |events|
        invariant 0 <= i <= |events|
        invariant uploads == old(uploads) + ReceiveEffect(events[..i]).uploads
        invariant ReceiveEffect(events[..i]).raised == None
        invariant raised == None
      {
        ghost var before := uploads;
        raised := HandleEvent(events[i]);
        assert events[..i + 1] == events[..i] + [events[i]];
        ReceiveConcat(events[..i], [events[i]]);
        ReceiveOne(events[i]);
        if raised.Some? {
          ReceiveStopsAtException(events, i);
          assert uploads == before;
          return;
        }
        i := i + 1;
      }
      assert events[..i] == events;
    }

    /** `handle_event`. */
    method HandleEvent(event: Event) returns (raised: Option<RemoteError>)
      modifies this`uploads
      ensures uploads == old(uploads) + EventEffect(event).uploads
      ensures raised == EventEffect(event).raised
    {
      raised := None;
      if event.io.None? {
        return;
      }
      var io := event.io.value;
      var found := FileExists(event.lookup(FullFilePath(event.options, false)));
      if found.Err? {
        raised := Some(found.error);
        return;
      }
      if found.value {
        HandleOverwrite(event.options, io);
      } else {
        SaveFile(FullFilePath(event.options, false), io);
      }
    }

    /** `save_file`: one upload of the content to the path. */
    method SaveFile(path: string, content: Content)
      modifies this`uploads
      ensures uploads == old(uploads) + [Upload(path, content)]
    {
      uploads := uploads + [Upload(path, content)];
    }

    /** `handle_overwrite`: what to do when the destination is taken. */
    method HandleOverwrite(options: Options, content: Content)
      modifies this`uploads
      ensures uploads == old(uploads) + OverwriteUploads(options, content)
    {
      if options.overwriteMode == OverwriteOff {
      } else if options.overwriteMode == OverwriteOn {
        SaveFile(FullFilePath(options, false), content);
      } else if options.overwriteMode == OverwriteRename {
        SaveFile(FullFilePath(options, true), content);
      }
    }
  }
}
