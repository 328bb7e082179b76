/** Open editor documents with versions and a global revision
    (`WorkspaceDocuments`, src/pyflow/lsp/workspace.py). Each method of the class
    is one hold of the documents' lock, so a run is a sequence of its calls. */
module Documents {
  import opened Positions
  import opened Wrappers

  type Path = string

  datatype Version = NoVersion | Version(number: int)

  datatype Document = Document(text: string, version: Version)

  /** One content change of an edit: the whole text, a range, or a payload that
      is not a well-formed range. */
  datatype ContentChange =
    | Full(text: string)
    | Ranged(start: Position, end: Position, text: string)
    | Malformed

  /** The state: overlays by path, and the revision. */
  datatype Overlays = Overlays(documents: map<Path, Document>, revision: nat)

  datatype Outcome = Accepted | Rejected | Failed(message: string)

  // ------------------------------------------------------ content changes

  /** One change applied to a text. */
  function ApplyChange(text: string, change: ContentChange): Result<string> {
    match change
    case Full(replacement) => Ok(replacement)
    case Malformed => Err("LSP content change range must be an object")
    case Ranged(start, end, replacement) =>
      match PositionToOffset(text, start)
      case Err(message) => Err(message)
      case Ok(from) =>
        match PositionToOffset(text, end)
        case Err(message) => Err(message)
        case Ok(to) =>
          if to < from then Err("LSP content change end precedes start")
          else Ok(text[..from] + replacement + text[to..])
  }

  /** A ranged change whose positions are in the text and in order replaces exactly
      what lies between them by the text it brings; a full one replaces all. Other
      changes fail. */
  lemma {:induction false} ChangeReplaces(text: string, change: ContentChange)
    ensures change.Full? ==> ApplyChange(text, change) == Ok(change.text)
    ensures change.Malformed? ==> ApplyChange(text, change).Err?
    ensures change.Ranged? ==>
              var start, end := change.start, change.end;
              && (ApplyChange(text, change).Ok? <==>
                    start.line >= 0 && end.line >= 0 && OffsetOf(text, start) <= OffsetOf(text, end))
              && (ApplyChange(text, change).Ok? ==>
                    var r, a, b := ApplyChange(text, change).value, OffsetOf(text, start), OffsetOf(text, end);
                    && |r| == |text| - (b - a) + |change.text|
                    && r[..a] == text[..a]
                    && r[a..a + |change.text|] == change.text
                    && r[a + |change.text|..] == text[b..])
  {
  }

  /** The changes of one edit, in order, each on the result of the one before;
      the first that cannot be applied fails the whole edit. */
  function ApplyChanges(text: string, changes: seq<ContentChange>): Result<string> {
    if changes == [] then Ok(text)
    else
      match ApplyChanges(text, changes[..|changes| - 1])
      case Err(message) => Err(message)
      case Ok(before) => ApplyChange(before, changes[|changes| - 1])
  }

  /** A failed change fails every longer list of changes in the same way. */
  lemma {:induction false} FailureStays(text: string, changes: seq<ContentChange>, i: nat)
    requires i <= |changes| && ApplyChanges(text, changes[..i]).Err?
    ensures ApplyChanges(text, changes) == ApplyChanges(text, changes[..i])
    decreases |changes|
  {
    if i < |changes| {
      var shorter := changes[..|changes| - 1];
      assert shorter[..i] == changes[..i];
      FailureStays(text, shorter, i);
    } else {
      assert changes[..i] == changes;
    }
  }

  // ------------------------------------------------------------ operations

  /** An operation of an editor session. A change of a path that is not open
      starts from the text on disk, which the operation carries. */
  datatype Operation =
    | Open(path: Path, text: string, version: Version)
    | Change(path: Path, changes: seq<ContentChange>, version: Version, disk: string)
    | Close(path: Path)

  /** Both versions are known and the new one is not newer. */
  predicate Stale(s: Overlays, path: Path, version: Version) {
    && path in s.documents && version.Version? && s.documents[path].version.Version?
    && version.number <= s.documents[path].version.number
  }

  function BaseText(s: Overlays, path: Path, disk: string): string {
    if path in s.documents then s.documents[path].text else disk
  }

  function Step(s: Overlays, op: Operation): (Overlays, Outcome) {
    match op
    case Open(path, text, version) =>
      if Stale(s, path, version) then (s, Rejected)
      else (Overlays(s.documents[path := Document(text, version)], s.revision + 1), Accepted)
    case Change(path, changes, version, disk) =>
      if Stale(s, path, version) then (s, Rejected)
      else (match ApplyChanges(BaseText(s, path, disk), changes)
            case Err(message) => (s, Failed(message))
            case Ok(text) => (Overlays(s.documents[path := Document(text, version)], s.revision + 1), Accepted))
    case Close(path) =>
      if path !in s.documents then (s, Rejected)
      else (Overlays(s.documents - {path}, s.revision + 1), Accepted)
  }

  class WorkspaceDocuments {
    var documents: map<Path, Document>
    var revision: nat

    ghost function State(): Overlays
      reads this
    {
      Overlays(documents, revision)
    }

    constructor ()
      ensures State() == Overlays(map[], 0)
    {
      documents, revision := map[], 0;
    }

    method Open(path: Path, text: string, version: Version) returns (accepted: bool)
      modifies this
      ensures State() == Step(old(State()), Operation.Open(path, text, version)).0
      ensures accepted == Step(old(State()), Operation.Open(path, text, version)).1.Accepted?
    {
      if path in documents && version.Version? && documents[path].version.Version?
         && version.number <= documents[path].version.number {
        return false;
      }
      documents := documents[path := Document(text, version)];
      revision := revision + 1;
      return true;
    }

    /** Edits are applied to a local text; the overlay is replaced only at the end. */
    method Change(path: Path, changes: seq<ContentChange>, version: Version, disk: string) returns (outcome: Outcome)
      modifies this
      ensures (State(), outcome) == Step(old(State()), Operation.Change(path, changes, version, disk))
    {
      if path in documents && version.Version? && documents[path].version.Version?
         && version.number <= documents[path].version.number {
        return Rejected;
      }
      var base := if path in documents then documents[path].text else disk;
      var text := base;
      for i := 0 to |changes|
        invariant ApplyChanges(base, changes[..i]) == Ok(text)
        invariant unchanged(this)
      {
        assert changes[..i + 1][..i] == changes[..i];
        var edited := ApplyChange(text, changes[i]);
        if edited.Err? {
          FailureStays(base, changes, i + 1);
          return Failed(edited.message);
        }
        text := edited.value;
      }
      assert changes[..|changes|] == changes;
      documents := documents[path := Document(text, version)];
      revision := revision + 1;
      return Accepted;
    }

    method Close(path: Path) returns (existed: bool)
      modifies this
      ensures State() == Step(old(State()), Operation.Close(path)).0
      ensures existed == Step(old(State()), Operation.Close(path)).1.Accepted?
      ensures existed <==> path in old(documents)
      ensures documents == old(documents) - {path}
    {
      existed := path in documents;
      if !existed {
        return;
      }
      documents := documents - {path};
      revision := revision + 1;
    }

    /** Overlay texts and the revision, read in one lock hold. */
    method Snapshot() returns (overrides: map<Path, string>, at: nat)
      ensures overrides == Texts(State()) && at == revision
    {
      overrides := map path | path in documents :: documents[path].text;
      at := revision;
    }
  }

  function Texts(s: Overlays): map<Path, string> {
    map path | path in s.documents :: s.documents[path].text
  }

  // ------------------------------------------------------------------- runs

  function Run(s: Overlays, ops: seq<Operation>): Overlays {
    if ops == [] then s else Step(Run(s, ops[..|ops| - 1]), ops[|ops| - 1]).0
  }

  /** Was operation `i` of the run accepted? */
  predicate AcceptedAt(s: Overlays, ops: seq<Operation>, i: nat)
    requires i < |ops|
  {
    Step(Run(s, ops[..i]), ops[i]).1.Accepted?
  }

  function AcceptedCount(s: Overlays, ops: seq<Operation>): nat {
    if ops == [] then 0
    else AcceptedCount(s, ops[..|ops| - 1]) + if AcceptedAt(s, ops, |ops| - 1) then 1 else 0
  }

  /** The revision counts exactly the accepted operations. */
  lemma {:induction false} RevisionCountsAccepted(s: Overlays, ops: seq<Operation>)
    ensures Run(s, ops).revision == s.revision + AcceptedCount(s, ops)
  {
    if ops != [] {
      RevisionCountsAccepted(s, ops[..|ops| - 1]);
    }
  }

  lemma {:induction false} RevisionMonotone(s: Overlays, ops: seq<Operation>, i: nat)
    requires i <= |ops|
    ensures Run(s, ops[..i]).revision <= Run(s, ops).revision
    ensures Run(s, ops[..i]).revision == Run(s, ops).revision ==> Run(s, ops[..i]) == Run(s, ops)
    decreases |ops|
  {
    if i == |ops| {
      assert ops[..i] == ops;
    } else {
      var shorter := ops[..|ops| - 1];
      assert shorter[..i] == ops[..i];
      RevisionMonotone(s, shorter, i);
    }
  }

  /** The revision determines the overlays: two moments of one run with the same
      revision have the same documents, texts and versions. In particular what a
      rejected or malformed operation leaves behind is what it found. */
  lemma {:induction false} RevisionDeterminesOverlays(s: Overlays, ops: seq<Operation>, i: nat, j: nat)
    requires i <= j <= |ops|
    requires Run(s, ops[..i]).revision == Run(s, ops[..j]).revision
    ensures Run(s, ops[..i]) == Run(s, ops[..j])
  {
    assert ops[..j][..i] == ops[..i];
    RevisionMonotone(s, ops[..j], i);
  }

  /** An operation is accepted exactly when it leaves a new revision. */
  lemma {:induction false} OnlyAcceptedLeaveATrace(s: Overlays, op: Operation)
    ensures Step(s, op).1.Accepted? <==> Step(s, op).0 != s
    ensures Step(s, op).1.Accepted? <==> Step(s, op).0.revision == s.revision + 1
  {
  }

  // -------------------------------------------------------- one document

  /** The accepted operations on one path, in order. */
  function EventsOn(s: Overlays, ops: seq<Operation>, path: Path): seq<Operation> {
    if ops == [] then []
    else
      EventsOn(s, ops[..|ops| - 1], path)
      + if AcceptedAt(s, ops, |ops| - 1) && ops[|ops| - 1].path == path then [ops[|ops| - 1]] else []
  }

  function DocumentAt(s: Overlays, path: Path): Option<Document> {
    if path in s.documents then Some(s.documents[path]) else None
  }

  /** What one operation makes of its document, other paths and revisions left
      out: an open sets the text, an edit rewrites it (from the disk when the
      document is not open), a close forgets it. */
  function Next(document: Option<Document>, op: Operation): Option<Document> {
    match op
    case Open(_, text, version) => Some(Document(text, version))
    case Change(_, changes, version, disk) =>
      var edited := ApplyChanges(if document.Some? then document.value.text else disk, changes);
      if edited.Ok? then Some(Document(edited.value, version)) else document
    case Close(_) => None
  }

  function Fold(document: Option<Document>, events: seq<Operation>): Option<Document> {
    if events == [] then document else Next(Fold(document, events[..|events| - 1]), events[|events| - 1])
  }

  lemma {:induction false} StepOnPath(s: Overlays, op: Operation, path: Path)
    ensures DocumentAt(Step(s, op).0, path)
         == if Step(s, op).1.Accepted? && op.path == path then Next(DocumentAt(s, path), op) else DocumentAt(s, path)
  {
  }

  lemma {:induction false} FoldAppend(document: Option<Document>, events: seq<Operation>, op: Operation)
    ensures Fold(document, events + [op]) == Next(Fold(document, events), op)
  {
    assert (events + [op])[..|events + [op]| - 1] == events;
  }

  /** A document is the in-order fold of the accepted operations on its own path. */
  lemma {:induction false} DocumentIsFoldOfItsEvents(s: Overlays, ops: seq<Operation>, path: Path)
    ensures DocumentAt(Run(s, ops), path) == Fold(DocumentAt(s, path), EventsOn(s, ops, path))
  {
    if ops != [] {
      var shorter, op := ops[..|ops| - 1], ops[|ops| - 1];
      DocumentIsFoldOfItsEvents(s, shorter, path);
      StepOnPath(Run(s, shorter), op, path);
      FoldAppend(DocumentAt(s, path), EventsOn(s, shorter, path), op);
      assert EventsOn(s, shorter, path) + [] == EventsOn(s, shorter, path);
    }
  }

  /** The client supplies a version with every open and edit of the path and does
      not close it. */
  ghost predicate VersionedWhileOpen(ops: seq<Operation>, path: Path) {
    forall op :: op in ops && op.path == path ==> !op.Close? && op.version.Version?
  }

  /** While a document stays open under such a client, its version never falls,
      it rises strictly with every accepted operation on the document, and so an
      equal version means the identical document. */
  lemma {:induction false} VersionsStrictlyIncrease(s: Overlays, ops: seq<Operation>, path: Path)
    requires path in s.documents && s.documents[path].version.Version?
    requires VersionedWhileOpen(ops, path)
    ensures path in Run(s, ops).documents
    ensures var before, after := s.documents[path], Run(s, ops).documents[path];
            && after.version.Version?
            && before.version.number + |EventsOn(s, ops, path)| <= after.version.number
            && (before.version == after.version ==> before == after)
  {
    if ops != [] {
      VersionsStrictlyIncrease(s, ops[..|ops| - 1], path);
    }
  }
}
