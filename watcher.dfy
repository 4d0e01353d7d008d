/** The body of `main`'s polling loop: fetch, hash, compare with the
    previous digests, notify, save. One cycle is `Step` (specification) and
    `Monitor.Cycle` (the loop body over the variables the program
    reassigns); a finite run of cycles is `Run` and `Monitor.RunCycles`. */
module Watcher {
  import opened Optional
  import opened Text
  import opened Hashing
  import opened HashStore
  import opened Extraction
  import opened Notifier

  const StructureSubject := "OLG Hamm – Strukturänderung erkannt"
  const StructureBody := "Die Gesamtstruktur der Seite hat sich verändert (möglicherweise Layout oder Position des Ausbildungsbereichs)."
  const UpdateSubject := "OLG Hamm – Ausbildungsplatz-Update!"
  const UpdatePreamble := "Der Inhalt im Ausbildungsabschnitt hat sich geändert.\n\nAktueller Inhalt:\n\n"
  const EmptyPlaceholder := "[leer]"

  /** The body of the "update" notice: the preamble, then the section text,
      or the placeholder when there is none. */
  function UpdateBody(section: Option<string>): (r: string)
    ensures StartsWith(r, UpdatePreamble) && |r| > |UpdatePreamble|
  {
    UpdatePreamble + (if section.Some? && section.value != "" then section.value else EmptyPlaceholder)
  }

  /** A fetched page: its HTML text and what the parser makes of it. */
  datatype Page = Page(html: string, doc: Document)

  /** `fetch_page`: the page, or a request error. */
  datatype Fetch = FetchFailed | Fetched(page: Page)

  /** `save_hashes`: done, or raised at some point of its work. */
  datatype SaveOutcome = SaveOk | SaveFailed(failure: SaveFailure)

  /** Everything the outside world decides during one cycle. */
  datatype CycleInput = CycleInput(fetch: Fetch, structureNet: Net, updateNet: Net, save: SaveOutcome)

  /** The observable effects of a cycle, in the order they happen. */
  datatype Event = Notified(notice: Notice) | Persisted(content: string) | PersistFailed

  /** The two digests the loop carries, the state file, and everything done so far. */
  datatype State = State(lastFull: Option<string>, lastSection: Option<string>, disk: FileState, trace: seq<Event>)

  /** The state right after `load_hashes` at start-up. */
  function Start(disk: FileState): (r: State)
    ensures r.disk == disk && r.trace == []
    ensures Paired(r) && Mirrored(r)
  {
    State(Load(disk).0, Load(disk).1, disk, [])
  }

  function FullHash(H: Hasher, page: Page): string {
    GetHash(H, Some(page.html))
  }

  function SectionHash(H: Hasher, page: Page): string {
    GetHash(H, Section(page.doc))
  }

  /** The "structure changed" notice, when the page digest changed. */
  function StructureNotices(lastFull: Option<string>, fullHash: string, net: Net, cfg: Config): (r: seq<Notice>)
    ensures |r| <= 1 && (r != [] <==> Some(fullHash) != lastFull)
    ensures forall k :: 0 <= k < |r| ==> r[k] == Notify(cfg, StructureSubject, StructureBody, net)
  {
    if Some(fullHash) != lastFull then [Notify(cfg, StructureSubject, StructureBody, net)] else []
  }

  /** The "update" notice, when the section digest changed. */
  function UpdateNotices(lastSection: Option<string>, sectionHash: string, section: Option<string>, net: Net, cfg: Config): (r: seq<Notice>)
    ensures |r| <= 1 && (r != [] <==> Some(sectionHash) != lastSection)
    ensures forall k :: 0 <= k < |r| ==> r[k] == Notify(cfg, UpdateSubject, UpdateBody(section), net)
  {
    if Some(sectionHash) != lastSection then [Notify(cfg, UpdateSubject, UpdateBody(section), net)] else []
  }

  /** The comparison of new digests with remembered ones: no notice in
      baseline, otherwise each of the two checks on its own. */
  function Compare(lastFull: Option<string>, lastSection: Option<string>, fullHash: string, sectionHash: string,
                   section: Option<string>, input: CycleInput, cfg: Config): (r: seq<Notice>)
    ensures lastFull.None? ==> r == []
    ensures |r| <= 2
  {
    if lastFull.None? then []
    else StructureNotices(lastFull, fullHash, input.structureNet, cfg)
         + UpdateNotices(lastSection, sectionHash, section, input.updateNet, cfg)
  }

  /** The notices a cycle sends for `page`, given the digests it remembers. */
  function Notices(s: State, page: Page, input: CycleInput, cfg: Config, H: Hasher): seq<Notice> {
    Compare(s.lastFull, s.lastSection, FullHash(H, page), SectionHash(H, page), Section(page.doc), input, cfg)
  }

  function AsEvents(ns: seq<Notice>): seq<Event> {
    seq(|ns|, k requires 0 <= k < |ns| => Notified(ns[k]))
  }

  lemma AsEventsAppend(a: seq<Notice>, b: seq<Notice>)
    ensures AsEvents(a + b) == AsEvents(a) + AsEvents(b)
  {
  }

  lemma AsEventsOne(n: Notice)
    ensures AsEvents([n]) == [Notified(n)]
  {
  }

  function Subjects(ns: seq<Notice>): (r: seq<string>)
    ensures |r| == |ns| && forall k :: 0 <= k < |r| ==> r[k] == ns[k].subject
  {
    seq(|ns|, k requires 0 <= k < |ns| => ns[k].subject)
  }

  /** One cycle of the loop. A failed fetch changes nothing. Otherwise the
      notices go out, then the digests are saved, and only a save that
      returns makes them the remembered ones. */
  function Step(s: State, input: CycleInput, cfg: Config, H: Hasher): (r: State)
    ensures |s.trace| <= |r.trace| && r.trace[..|s.trace|] == s.trace
  {
    match input.fetch
    case FetchFailed => s
    case Fetched(page) =>
      var notified := s.trace + AsEvents(Notices(s, page, input, cfg, H));
      match input.save
      case SaveOk =>
        var content := Save(FullHash(H, page), SectionHash(H, page));
        State(Some(FullHash(H, page)), Some(SectionHash(H, page)), Holding(content), notified + [Persisted(content)])
      case SaveFailed(failure) =>
        var content := Save(FullHash(H, page), SectionHash(H, page));
        State(s.lastFull, s.lastSection, AfterFailedSave(s.disk, content, failure), notified + [PersistFailed])
  }

  /** The cycles `inputs`, one after the other, from `s`. */
  function Run(s: State, inputs: seq<CycleInput>, cfg: Config, H: Hasher): (r: State)
    ensures |s.trace| <= |r.trace| && r.trace[..|s.trace|] == s.trace
    decreases |inputs|
  {
    if inputs == [] then s
    else Step(Run(s, inputs[..|inputs| - 1], cfg, H), inputs[|inputs| - 1], cfg, H)
  }

  /** Both digests are known, or neither is. */
  predicate Paired(s: State) {
    s.lastFull.None? <==> s.lastSection.None?
  }

  /** The state file holds what the loop remembers. */
  predicate Mirrored(s: State) {
    Load(s.disk) == (s.lastFull, s.lastSection)
  }

  /** The loop remembers exactly the digests of `page`. */
  predicate Remembers(s: State, page: Page, H: Hasher) {
    s.lastFull == Some(FullHash(H, page)) && s.lastSection == Some(SectionHash(H, page))
  }

  /** The program's digests never contain a line boundary. */
  ghost predicate LineFreeDigests(H: Hasher) {
    forall t :: LineFree(H(t))
  }

  /** Hexadecimal digests, as SHA-256's `hexdigest()` gives, are line-free. */
  lemma HexDigestsAreLineFree(H: Hasher)
    requires HexHasher(H)
    ensures LineFreeDigests(H)
  {
    forall t ensures LineFree(H(t)) {
      HexDigestIsLineFree(H(t));
    }
  }

  lemma SubjectsDiffer()
    ensures StructureSubject != UpdateSubject
  {
    assert StructureSubject[11] != UpdateSubject[11];
  }

  /** Baseline: without prior digests a cycle notifies no one, and a save
      that returns makes the page's digests the remembered ones. */
  lemma BaselineIsSilent(s: State, page: Page, input: CycleInput, cfg: Config, H: Hasher)
    requires s.lastFull.None? && input.fetch == Fetched(page)
    ensures Notices(s, page, input, cfg, H) == []
    ensures |Step(s, input, cfg, H).trace| == |s.trace| + 1
    ensures input.save.SaveOk? ==> Remembers(Step(s, input, cfg, H), page, H)
  {
  }

  /** Steady state: the "structure changed" notice goes out exactly when the
      page digest differs from the remembered one. */
  lemma StructureNoticeIff(s: State, page: Page, input: CycleInput, cfg: Config, H: Hasher)
    requires s.lastFull.Some?
    ensures StructureSubject in Subjects(Notices(s, page, input, cfg, H)) <==> FullHash(H, page) != s.lastFull.value
  {
    SubjectsDiffer();
    var ns := Notices(s, page, input, cfg, H);
    if FullHash(H, page) != s.lastFull.value {
      assert Subjects(ns)[0] == StructureSubject;
    }
  }

  /** Steady state: the "update" notice goes out exactly when the section
      digest differs from the remembered one, and it carries the section. */
  lemma UpdateNoticeIff(s: State, page: Page, input: CycleInput, cfg: Config, H: Hasher)
    requires s.lastFull.Some?
    ensures UpdateSubject in Subjects(Notices(s, page, input, cfg, H)) <==> Some(SectionHash(H, page)) != s.lastSection
    ensures forall n :: n in Notices(s, page, input, cfg, H) && n.subject == UpdateSubject ==> n.body == UpdateBody(Section(page.doc))
  {
    SubjectsDiffer();
    var st := StructureNotices(s.lastFull, FullHash(H, page), input.structureNet, cfg);
    var up := UpdateNotices(s.lastSection, SectionHash(H, page), Section(page.doc), input.updateNet, cfg);
    var ns := Notices(s, page, input, cfg, H);
    assert ns == st + up;
    assert forall n :: n in st ==> n.subject == StructureSubject;
    if Some(SectionHash(H, page)) != s.lastSection {
      assert Subjects(ns)[|st|] == UpdateSubject;
    } else {
      assert ns == st;
      assert UpdateSubject !in Subjects(ns);
    }
  }

  /** When page and section both changed, both notices go out, the
      structure notice first. */
  lemma StructureNoticeFirst(s: State, page: Page, input: CycleInput, cfg: Config, H: Hasher)
    requires s.lastFull.Some?
    requires FullHash(H, page) != s.lastFull.value && Some(SectionHash(H, page)) != s.lastSection
    ensures Subjects(Notices(s, page, input, cfg, H)) == [StructureSubject, UpdateSubject]
  {
  }

  /** The update body starts with the preamble and ends with the section
      text; two sections give the same body only when they are equal or one
      is absent and the other is the placeholder text itself. */
  lemma UpdateBodyShowsSection(a: Option<string>, b: Option<string>)
    requires a != Some("") && b != Some("")
    ensures StartsWith(UpdateBody(a), UpdatePreamble)
    ensures a.Some? ==> UpdateBody(a)[|UpdatePreamble|..] == a.value
    ensures UpdateBody(a) == UpdateBody(b) ==> a == b || {a, b} == {None, Some(EmptyPlaceholder)}
  {
    var pa := UpdateBody(a)[|UpdatePreamble|..];
    var pb := UpdateBody(b)[|UpdatePreamble|..];
    assert UpdateBody(a) == UpdateBody(b) ==> pa == pb;
  }

  /** A failed fetch changes nothing at all. */
  lemma FailedFetchChangesNothing(s: State, input: CycleInput, cfg: Config, H: Hasher)
    requires input.fetch.FetchFailed?
    ensures Step(s, input, cfg, H) == s
  {
  }

  /** A save that raises leaves the remembered digests as they were; the
      notices have gone out all the same. */
  lemma FailedSaveKeepsDigests(s: State, page: Page, input: CycleInput, cfg: Config, H: Hasher)
    requires input.fetch == Fetched(page) && input.save.SaveFailed?
    ensures Step(s, input, cfg, H).lastFull == s.lastFull
    ensures Step(s, input, cfg, H).lastSection == s.lastSection
    ensures Step(s, input, cfg, H).disk == AfterFailedSave(s.disk, Save(FullHash(H, page), SectionHash(H, page)), input.save.failure)
    ensures Step(s, input, cfg, H).trace == s.trace + AsEvents(Notices(s, page, input, cfg, H)) + [PersistFailed]
  {
  }

  /** A restart after a save that raised resumes from the old file when the
      file was not opened; when it was cut short while writing, it resumes
      either as a first run or with the page's own digest and a prefix of
      the section's. */
  lemma FailedSaveRestart(s: State, page: Page, input: CycleInput, cfg: Config, H: Hasher)
    requires LineFreeDigests(H)
    requires input.fetch == Fetched(page) && input.save.SaveFailed?
    ensures var restarted := Start(Step(s, input, cfg, H).disk);
            && (input.save.failure.BeforeOpen? ==> restarted == Start(s.disk))
            && (input.save.failure.WhileWriting? && restarted.lastFull.Some? ==>
                  restarted.lastFull == Some(FullHash(H, page))
                  && StartsWith(SectionHash(H, page), restarted.lastSection.value))
  {
    if input.save.failure.WhileWriting? {
      TruncatedSaveLoad(FullHash(H, page), SectionHash(H, page), input.save.failure.kept);
    }
  }

  /** Within a cycle every notice precedes the save, which comes last and once. */
  lemma NoticesBeforeSave(s: State, page: Page, input: CycleInput, cfg: Config, H: Hasher)
    requires input.fetch == Fetched(page)
    ensures var t := Step(s, input, cfg, H).trace;
            && |t| > |s.trace| && t[..|s.trace|] == s.trace
            && (forall k :: |s.trace| <= k < |t| - 1 ==> t[k].Notified?)
            && !t[|t| - 1].Notified?
            && (t[|t| - 1].Persisted? <==> input.save.SaveOk?)
  {
    var t := Step(s, input, cfg, H).trace;
    var ns := AsEvents(Notices(s, page, input, cfg, H));
    assert t[..|s.trace|] == s.trace;
    forall k | |s.trace| <= k < |t| - 1 ensures t[k].Notified? {
      assert t[k] == ns[k - |s.trace|];
    }
  }

  /** A cycle that fetches a page the loop remembers sends nothing, and a
      save that returns rewrites the file with the same text. */
  lemma RememberedPageIsSilent(s: State, page: Page, input: CycleInput, cfg: Config, H: Hasher)
    requires Remembers(s, page, H) && input.fetch == Fetched(page)
    ensures Notices(s, page, input, cfg, H) == []
    ensures Remembers(Step(s, input, cfg, H), page, H)
    ensures input.save.SaveOk? ==> Step(s, input, cfg, H).disk == Holding(Save(FullHash(H, page), SectionHash(H, page)))
  {
  }

  /** The same page twice: after a cycle whose save returned, fetching the
      same page again sends no notice and leaves the file's text unchanged. */
  lemma SamePageTwiceIsSilent(s: State, page: Page, first: CycleInput, second: CycleInput, cfg: Config, H: Hasher)
    requires first.fetch == Fetched(page) && first.save.SaveOk?
    requires second.fetch == Fetched(page) && second.save.SaveOk?
    ensures var s1 := Step(s, first, cfg, H);
            var s2 := Step(s1, second, cfg, H);
            && s2.trace == s1.trace + [Persisted(Save(FullHash(H, page), SectionHash(H, page)))]
            && s2.disk == s1.disk
            && s2.lastFull == s1.lastFull && s2.lastSection == s1.lastSection
  {
    var s1 := Step(s, first, cfg, H);
    RememberedPageIsSilent(s1, page, second, cfg, H);
    assert AsEvents([]) == [];
  }

  /** Whatever happens in a cycle, both digests stay known or unknown together. */
  lemma StepKeepsPaired(s: State, input: CycleInput, cfg: Config, H: Hasher)
    requires Paired(s)
    ensures Paired(Step(s, input, cfg, H))
  {
  }

  /** The file mirrors the remembered digests after every cycle whose save
      returned, and a failed fetch keeps the mirror intact. */
  lemma StepKeepsMirrored(s: State, input: CycleInput, cfg: Config, H: Hasher)
    requires LineFreeDigests(H)
    requires input.fetch.FetchFailed? ==> Mirrored(s)
    requires input.save.SaveOk?
    ensures Mirrored(Step(s, input, cfg, H))
  {
    if input.fetch.Fetched? {
      var page := input.fetch.page;
      SaveLoadRoundTrip(FullHash(H, page), SectionHash(H, page));
    }
  }

  /** Restarting the program after a cycle whose save returned resumes with
      the same digests, so the same page again sends nothing. */
  lemma RestartResumes(s: State, page: Page, first: CycleInput, second: CycleInput, cfg: Config, H: Hasher)
    requires LineFreeDigests(H)
    requires first.fetch == Fetched(page) && first.save.SaveOk?
    requires second.fetch == Fetched(page)
    ensures var restarted := Start(Step(s, first, cfg, H).disk);
            Remembers(restarted, page, H) && Notices(restarted, page, second, cfg, H) == []
  {
    StepKeepsMirrored(s, first, cfg, H);
  }

  /** Run of no cycles, and a run extended by one more cycle. */
  lemma RunAppend(s: State, inputs: seq<CycleInput>, input: CycleInput, cfg: Config, H: Hasher)
    ensures Run(s, inputs + [input], cfg, H) == Step(Run(s, inputs, cfg, H), input, cfg, H)
  {
    assert (inputs + [input])[..|inputs|] == inputs;
  }

  /** Any number of cycles keeps the digests paired. */
  lemma {:induction false} RunKeepsPaired(s: State, inputs: seq<CycleInput>, cfg: Config, H: Hasher)
    requires Paired(s)
    ensures Paired(Run(s, inputs, cfg, H))
    decreases |inputs|
  {
    if inputs != [] {
      var prefix := inputs[..|inputs| - 1];
      RunKeepsPaired(s, prefix, cfg, H);
      StepKeepsPaired(Run(s, prefix, cfg, H), inputs[|inputs| - 1], cfg, H);
    }
  }

  /** One cycle on a remembered page, or one that fails to fetch, adds no notice. */
  lemma SilentStep(s: State, page: Page, input: CycleInput, cfg: Config, H: Hasher)
    requires Remembers(s, page, H)
    requires input.fetch == FetchFailed || input.fetch == Fetched(page)
    ensures Remembers(Step(s, input, cfg, H), page, H)
    ensures var t := Step(s, input, cfg, H).trace;
            |t| >= |s.trace| && t[..|s.trace|] == s.trace
            && forall k :: |s.trace| <= k < |t| ==> !t[k].Notified?
  {
    if input.fetch.Fetched? {
      RememberedPageIsSilent(s, page, input, cfg, H);
      assert AsEvents([]) == [];
      var t := Step(s, input, cfg, H).trace;
      assert |t| == |s.trace| + 1 && !t[|s.trace|].Notified?;
      assert t[..|s.trace|] == s.trace;
    }
  }

  /** While the page stays the same (or cannot be fetched), no notice is
      ever sent and the loop keeps remembering that page. */
  lemma {:induction false} SteadyPageRunIsSilent(s: State, page: Page, inputs: seq<CycleInput>, cfg: Config, H: Hasher)
    requires Remembers(s, page, H)
    requires forall k :: 0 <= k < |inputs| ==> inputs[k].fetch == FetchFailed || inputs[k].fetch == Fetched(page)
    ensures Remembers(Run(s, inputs, cfg, H), page, H)
    ensures var t := Run(s, inputs, cfg, H).trace;
            |t| >= |s.trace| && t[..|s.trace|] == s.trace
            && forall k :: |s.trace| <= k < |t| ==> !t[k].Notified?
    decreases |inputs|
  {
    if inputs != [] {
      var prefix := inputs[..|inputs| - 1];
      var last := inputs[|inputs| - 1];
      SteadyPageRunIsSilent(s, page, prefix, cfg, H);
      var mid := Run(s, prefix, cfg, H);
      SilentStep(mid, page, last, cfg, H);
      assert Run(s, inputs, cfg, H) == Step(mid, last, cfg, H);
      var t := Step(mid, last, cfg, H).trace;
      assert t[..|s.trace|] == mid.trace[..|s.trace|];
      forall k | |s.trace| <= k < |t| ensures !t[k].Notified? {
        if k < |mid.trace| {
          assert t[k] == mid.trace[k];
        }
      }
    }
  }

  /** The loop of `main`: the two remembered digests, the state file, and
      the events so far. Configuration and digest function are fixed at
      start-up. */
  class Monitor {
    const cfg: Config
    const H: Hasher
    var lastFull: Option<string>
    var lastSection: Option<string>
    var disk: FileState
    var trace: seq<Event>

    function Snapshot(): State
      reads this
    {
      State(lastFull, lastSection, disk, trace)
    }

    /** Start-up: `load_hashes` once, before the loop. */
    constructor (cfg: Config, H: Hasher, disk: FileState)
      ensures this.cfg == cfg && this.H == H
      ensures Snapshot() == Start(disk)
      ensures Paired(Snapshot()) && Mirrored(Snapshot())
    {
      this.cfg := cfg;
      this.H := H;
      var (full, section) := Load(disk);
      lastFull := full;
      lastSection := section;
      this.disk := disk;
      trace := [];
    }

    /** One `notify` call, appended to the trace. */
    method Send(subject: string, body: string, net: Net)
      modifies this`trace
      ensures trace == old(trace) + [Notified(Notify(cfg, subject, body, net))]
    {
      trace := trace + [Notified(Notify(cfg, subject, body, net))];
    }

    /** The page comparison of a steady cycle. */
    method AnnounceStructure(fullHash: string, net: Net)
      modifies this`trace
      ensures trace == old(trace) + AsEvents(StructureNotices(lastFull, fullHash, net, cfg))
    {
      if Some(fullHash) != lastFull {
        Send(StructureSubject, StructureBody, net);
        AsEventsOne(Notify(cfg, StructureSubject, StructureBody, net));
      } else {
        assert AsEvents([]) == [];
      }
    }

    /** The section comparison of a steady cycle. */
    method AnnounceUpdate(sectionHash: string, section: Option<string>, net: Net)
      modifies this`trace
      ensures trace == old(trace) + AsEvents(UpdateNotices(lastSection, sectionHash, section, net, cfg))
    {
      if Some(sectionHash) != lastSection {
        Send(UpdateSubject, UpdateBody(section), net);
        AsEventsOne(Notify(cfg, UpdateSubject, UpdateBody(section), net));
      } else {
        assert AsEvents([]) == [];
      }
    }

    /** The comparison part of a cycle: no notice in baseline, otherwise the
        two checks, page first. */
    method Announce(fullHash: string, sectionHash: string, section: Option<string>, input: CycleInput)
      modifies this`trace
      ensures trace == old(trace) + AsEvents(Compare(lastFull, lastSection, fullHash, sectionHash, section, input, cfg))
    {
      if lastFull.None? {
        // baseline: nothing to compare with
        assert AsEvents([]) == [];
      } else {
        ghost var st := StructureNotices(lastFull, fullHash, input.structureNet, cfg);
        ghost var up := UpdateNotices(lastSection, sectionHash, section, input.updateNet, cfg);
        AnnounceStructure(fullHash, input.structureNet);
        AnnounceUpdate(sectionHash, section, input.updateNet);
        AsEventsAppend(st, up);
      }
    }

    /** The body of the `while True` loop. */
    method Cycle(input: CycleInput)
      modifies this
      ensures Snapshot() == Step(old(Snapshot()), input, cfg, H)
    {
      if input.fetch.FetchFailed? {
        return;
      }
      var page := input.fetch.page;
      var fullHash := GetHash(H, Some(page.html));
      var section := ExtractSection(page.doc);
      var sectionHash := GetHash(H, section);
      Announce(fullHash, sectionHash, section, input);
      match input.save {
        case SaveOk =>
          var content := Save(fullHash, sectionHash);
          disk := Holding(content);
          trace := trace + [Persisted(content)];
          lastFull, lastSection := Some(fullHash), Some(sectionHash);
        case SaveFailed(failure) =>
          disk := AfterFailedSave(disk, Save(fullHash, sectionHash), failure);
          trace := trace + [PersistFailed];
      }
    }

    /** The loop run for the cycles `inputs`. */
    method RunCycles(inputs: seq<CycleInput>)
      modifies this
      ensures Snapshot() == Run(old(Snapshot()), inputs, cfg, H)
    {
      var i := 0;
      while i < |inputs|
        invariant 0 <= i <= |inputs|
        invariant Snapshot() == Run(old(Snapshot()), inputs[..i], cfg, H)
      {
        Cycle(inputs[i]);
        RunAppend(old(Snapshot()), inputs[..i], inputs[i], cfg, H);
        assert inputs[..i + 1] == inputs[..i] + [inputs[i]];
        i := i + 1;
      }
      assert inputs[..i] == inputs;
    }
  }
}
