/** The stored score record and its schema: which fields are required, which events
    are allowed, the trimmed name, and the defaults filled in at creation. */
module ScoreModel {
  import opened Wrappers

  /** The event categories the schema accepts. */
  const AllowedEvents: set<string> := {"cs", "it"}

  /** The event a record gets when none is supplied. */
  const DefaultEvent: string := "cs"

  /** One stored attempt. `playedAt` is a clock reading in milliseconds. */
  datatype Score = Score(
    name: string,
    target: real,
    actual: real,
    difference: real,
    accuracy: real,
    event: string,
    playedAt: int)

  /** The values handed to the schema when a document is created; any may be absent. */
  datatype ScoreFields = ScoreFields(
    name: Option<string>,
    target: Option<real>,
    actual: Option<real>,
    difference: Option<real>,
    accuracy: Option<real>,
    event: Option<string>,
    playedAt: Option<int>)

  /** The schema paths a validation error can name. */
  datatype Path = NamePath | TargetPath | ActualPath | DifferencePath | AccuracyPath | EventPath

  /** The characters JavaScript's `trim` removes: white space (tab, vertical tab, form
      feed, space, no-break space, byte order mark and the Unicode space separators) and
      line terminators (line feed, carriage return, line and paragraph separators). */
  const WhitespaceChars: set<char> := {
    '\t', '\n', '\U{000B}', '\U{000C}', '\r', ' ', '\U{00A0}', '\U{1680}',
    '\U{2000}', '\U{2001}', '\U{2002}', '\U{2003}', '\U{2004}', '\U{2005}',
    '\U{2006}', '\U{2007}', '\U{2008}', '\U{2009}', '\U{200A}',
    '\U{2028}', '\U{2029}', '\U{202F}', '\U{205F}', '\U{3000}', '\U{FEFF}'
  }

  predicate IsWhitespace(c: char) {
    c in WhitespaceChars
  }

  /** `s` neither starts nor ends with white space. */
  predicate Trimmed(s: string) {
    s == [] || (!IsWhitespace(s[0]) && !IsWhitespace(s[|s| - 1]))
  }

  /** `s` without its leading white space. */
  function TrimStart(s: string): (r: string)
    ensures |r| <= |s| && r == s[|s| - |r|..]
    ensures forall k :: 0 <= k < |s| - |r| ==> IsWhitespace(s[k])
    ensures r == [] || !IsWhitespace(r[0])
    decreases |s|
  {
    if s != [] && IsWhitespace(s[0]) then TrimStart(s[1..]) else s
  }

  /** `s` without its trailing white space. */
  function TrimEnd(s: string): (r: string)
    ensures |r| <= |s| && r == s[..|r|]
    ensures forall k :: |r| <= k < |s| ==> IsWhitespace(s[k])
    ensures r == [] || !IsWhitespace(r[|r| - 1])
    decreases |s|
  {
    if s != [] && IsWhitespace(s[|s| - 1]) then TrimEnd(s[..|s| - 1]) else s
  }

  /** `r` is the slice of `s` starting at `lo`, and everything of `s` outside it is
      white space. */
  predicate SliceWithin(s: string, r: string, lo: int) {
    0 <= lo <= |s| - |r| && r == s[lo..lo + |r|] &&
    (forall k :: 0 <= k < lo ==> IsWhitespace(s[k])) &&
    (forall k :: lo + |r| <= k < |s| ==> IsWhitespace(s[k]))
  }

  /** `s` without surrounding white space: a slice of `s` that is itself trimmed, and
      everything cut off on either side is white space. */
  function Trim(s: string): (r: string)
    ensures Trimmed(r)
    ensures exists lo :: SliceWithin(s, r, lo)
  {
    SliceAround(s, TrimStart(s), TrimEnd(TrimStart(s)));
    TrimEnd(TrimStart(s))
  }

  /** Cutting white space off the front and then off the back leaves a slice of `s`
      with only white space around it. */
  lemma SliceAround(s: string, front: string, r: string)
    requires |front| <= |s| && front == s[|s| - |front|..]
    requires forall k :: 0 <= k < |s| - |front| ==> IsWhitespace(s[k])
    requires |r| <= |front| && r == front[..|r|]
    requires forall k :: |r| <= k < |front| ==> IsWhitespace(front[k])
    ensures SliceWithin(s, r, |s| - |front|)
  {
    var lo := |s| - |front|;
    forall k | lo + |r| <= k < |s| ensures IsWhitespace(s[k]) {
      assert s[k] == front[k - lo];
    }
  }

  /** Trimming a string that has no surrounding white space leaves it as it is. */
  lemma TrimKeepsTrimmed(s: string)
    requires Trimmed(s)
    ensures Trim(s) == s
  {
  }

  /** Trimming twice is trimming once. */
  lemma TrimIdempotent(s: string)
    ensures Trim(Trim(s)) == Trim(s)
  {
    TrimKeepsTrimmed(Trim(s));
  }

  /** A record as the schema admits it into the collection. */
  predicate ValidScore(s: Score) {
    s.name != [] && Trimmed(s.name) && s.event in AllowedEvents
  }

  /** The document as created: the name's setter trims it, and `event` and `playedAt`
      take their defaults when absent. */
  function Cast(f: ScoreFields, now: int): (d: ScoreFields)
    ensures d.name.Some? <==> f.name.Some?
    ensures d.name.Some? ==> d.name.value == Trim(f.name.value)
    ensures d.target == f.target && d.actual == f.actual
    ensures d.difference == f.difference && d.accuracy == f.accuracy
    ensures d.event == Some(if f.event.Some? then f.event.value else DefaultEvent)
    ensures d.playedAt == Some(if f.playedAt.Some? then f.playedAt.value else now)
  {
    ScoreFields(
      if f.name.Some? then Some(Trim(f.name.value)) else None,
      f.target, f.actual, f.difference, f.accuracy,
      Some(if f.event.Some? then f.event.value else DefaultEvent),
      Some(if f.playedAt.Some? then f.playedAt.value else now))
  }

  /** The paths of `d` that fail validation: a required field that is absent or an
      empty string, or an event outside the allowed set. */
  function FailingPaths(d: ScoreFields): (p: set<Path>)
    ensures NamePath in p <==> d.name.None? || d.name.value == []
    ensures TargetPath in p <==> d.target.None?
    ensures ActualPath in p <==> d.actual.None?
    ensures DifferencePath in p <==> d.difference.None?
    ensures AccuracyPath in p <==> d.accuracy.None?
    ensures EventPath in p <==> d.event.None? || d.event.value !in AllowedEvents
  {
    (if d.name.None? || d.name.value == [] then {NamePath} else {}) +
    (if d.target.None? then {TargetPath} else {}) +
    (if d.actual.None? then {ActualPath} else {}) +
    (if d.difference.None? then {DifferencePath} else {}) +
    (if d.accuracy.None? then {AccuracyPath} else {}) +
    (if d.event.None? || d.event.value !in AllowedEvents then {EventPath} else {})
  }

  /** Creating a document from `f` at time `now` and validating it: either the record
      that would be stored, or the non-empty set of paths that failed. */
  function NewScore(f: ScoreFields, now: int): (r: Result<Score, set<Path>>)
    ensures r.Err? ==> r.error != {} && r.error == FailingPaths(Cast(f, now))
    ensures r.Ok? <==>
      f.name.Some? && Trim(f.name.value) != [] && f.target.Some? && f.actual.Some? &&
      f.difference.Some? && f.accuracy.Some? && (f.event.None? || f.event.value in AllowedEvents)
    ensures r.Ok? ==> ValidScore(r.value)
    ensures r.Ok? ==>
      r.value.name == Trim(f.name.value) && r.value.target == f.target.value &&
      r.value.actual == f.actual.value && r.value.difference == f.difference.value &&
      r.value.accuracy == f.accuracy.value
    ensures r.Ok? ==> r.value.event == if f.event.Some? then f.event.value else DefaultEvent
    ensures r.Ok? ==> r.value.playedAt == if f.playedAt.Some? then f.playedAt.value else now
  {
    var d := Cast(f, now);
    var failing := FailingPaths(d);
    if failing == {} then
      Ok(Score(d.name.value, d.target.value, d.actual.value, d.difference.value,
               d.accuracy.value, d.event.value, d.playedAt.value))
    else
      Err(failing)
  }
}
