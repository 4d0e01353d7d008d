/** The state file: `save_hashes` writes the two digests as two
    newline-terminated lines, `load_hashes` reads them back and falls back to
    "no prior state" on anything else. The file system is reduced to what a
    read yields. */
module HashStore {
  import opened Optional
  import opened Text

  /** What opening and reading the state file yields. */
  datatype FileState =
    | Missing                    // `os.path.exists` is false
    | Unreadable                 // `open` or `read` raised
    | Holding(content: string)   // the whole text of the file

  /** The text `save_hashes` writes: each digest on a line of its own. */
  function Save(fullHash: string, sectionHash: string): (r: string)
    ensures r == Terminated([fullHash, sectionHash])
  {
    assert [fullHash, sectionHash][1..] == [sectionHash];
    assert Terminated([sectionHash]) == sectionHash + "\n" + "";
    fullHash + "\n" + sectionHash + "\n"
  }

  /** Where a `save_hashes` call that raises stopped: `makedirs` or `open`
      raised, so the file was not touched; or `open` truncated the file and a
      write, or the flush on closing, raised after `kept` characters of the
      new text had reached it. */
  datatype SaveFailure = BeforeOpen | WhileWriting(kept: nat)

  /** The first `kept` characters of `content`, or all of it. */
  function Written(content: string, kept: nat): (r: string)
    ensures StartsWith(content, r)
    ensures kept < |content| ==> |r| == kept
    ensures kept >= |content| ==> r == content
  {
    content[..if kept < |content| then kept else |content|]
  }

  /** The file a raising `save_hashes` leaves behind: the old file, or a
      prefix, possibly empty, of the text it was writing. */
  function AfterFailedSave(before: FileState, content: string, failure: SaveFailure): (r: FileState)
    ensures failure.BeforeOpen? ==> r == before
    ensures failure.WhileWriting? ==> r.Holding? && StartsWith(content, r.content)
  {
    match failure
    case BeforeOpen => before
    case WhileWriting(kept) => Holding(Written(content, kept))
  }

  /** `load_hashes`: the two lines of the file, or `(None, None)` when the
      file is missing, unreadable, or does not split into exactly two lines. */
  function Load(file: FileState): (r: (Option<string>, Option<string>))
    ensures r.0.None? <==> r.1.None?
    ensures r.0.Some? <==> file.Holding? && |SplitLines(file.content)| == 2
    ensures r.0.Some? ==> LineFree(r.0.value) && LineFree(r.1.value)
    ensures r.0.Some? ==> r.0.value == SplitLines(file.content)[0] && r.1.value == SplitLines(file.content)[1]
  {
    match file
    case Missing => (None, None)
    case Unreadable => (None, None)
    case Holding(content) =>
      var lines := SplitLines(content);
      if |lines| == 2 then (Some(lines[0]), Some(lines[1])) else (None, None)
  }

  /** Saved line-free digests split back into exactly those two lines. */
  lemma SavedLines(fullHash: string, sectionHash: string)
    requires LineFree(fullHash) && LineFree(sectionHash)
    ensures SplitLines(Save(fullHash, sectionHash)) == [fullHash, sectionHash]
  {
    SplitLinesOfTerminated([fullHash, sectionHash]);
  }

  /** A saved digest with a line boundary in it never comes back as it was:
      the line read in its place is a strict prefix of it. */
  lemma SavedLinesTruncated(fullHash: string, sectionHash: string)
    requires !LineFree(fullHash) || !LineFree(sectionHash)
    ensures var lines := SplitLines(Save(fullHash, sectionHash));
            |lines| != 2 || |lines[0]| < |fullHash| || |lines[1]| < |sectionHash|
  {
    var content := Save(fullHash, sectionHash);
    var tail := sectionHash + "\n";
    assert content == fullHash + "\n" + tail;
    if LineFree(fullHash) {
      SplitLinesAfterLine(fullHash, tail);
      FirstBreakInHead(sectionHash, "\n");
      FirstLine(tail);
    } else {
      FirstBreakInHead(fullHash, "\n" + tail);
      assert fullHash + ("\n" + tail) == content;
      FirstLine(content);
    }
  }

  /** Loading what was saved gives back both digests exactly when neither
      contains a line boundary. */
  lemma SaveLoadRoundTrip(fullHash: string, sectionHash: string)
    ensures Load(Holding(Save(fullHash, sectionHash))) == (Some(fullHash), Some(sectionHash))
            <==> LineFree(fullHash) && LineFree(sectionHash)
  {
    if LineFree(fullHash) && LineFree(sectionHash) {
      SavedLines(fullHash, sectionHash);
    } else {
      SavedLinesTruncated(fullHash, sectionHash);
    }
  }

  /** A prefix of a saved section line is at most one line, itself a
      prefix of the section digest. */
  lemma SectionLinePrefix(sectionHash: string, rest: string)
    requires LineFree(sectionHash) && StartsWith(sectionHash + "\n", rest)
    ensures |SplitLines(rest)| <= 1
    ensures |SplitLines(rest)| == 1 ==> StartsWith(sectionHash, SplitLines(rest)[0])
  {
    if |rest| <= |sectionHash| {
      assert rest == sectionHash[..|rest|];
    } else {
      assert rest == sectionHash + "\n" + "";
      SplitLinesAfterLine(sectionHash, "");
    }
  }

  /** A prefix of `head + "\n" + tail` longer than `head` is `head`, the
      newline, and a prefix of `tail`. */
  lemma PrefixPastHead(head: string, tail: string, p: string)
    requires StartsWith(head + "\n" + tail, p) && |p| > |head|
    ensures p == head + "\n" + p[|head| + 1..]
    ensures StartsWith(tail, p[|head| + 1..])
  {
    var content := head + "\n" + tail;
    assert p == content[..|p|];
    assert forall k :: 0 <= k < |head| ==> p[k] == head[k];
    assert forall k :: |head| < k < |p| ==> p[k] == tail[k - |head| - 1];
  }

  /** A prefix of a saved text that reaches past the first line splits as
      the page digest followed by the lines of what comes after it. */
  lemma PastFirstLine(fullHash: string, sectionHash: string, p: string)
    requires LineFree(fullHash) && StartsWith(Save(fullHash, sectionHash), p) && |p| > |fullHash|
    ensures StartsWith(sectionHash + "\n", p[|fullHash| + 1..])
    ensures SplitLines(p) == [fullHash] + SplitLines(p[|fullHash| + 1..])
  {
    assert Save(fullHash, sectionHash) == fullHash + "\n" + (sectionHash + "\n");
    PrefixPastHead(fullHash, sectionHash + "\n", p);
    SplitLinesAfterLine(fullHash, p[|fullHash| + 1..]);
  }

  /** A save cut short while writing never yields a wrong page digest: if
      what reached the file loads as two lines at all, the first is the whole
      page digest, and only the second can be a truncated section digest. */
  lemma TruncatedSaveLoad(fullHash: string, sectionHash: string, kept: nat)
    requires LineFree(fullHash) && LineFree(sectionHash)
    ensures var r := Load(Holding(Written(Save(fullHash, sectionHash), kept)));
            r.0.Some? ==> r.0.value == fullHash && StartsWith(sectionHash, r.1.value)
  {
    var p := Written(Save(fullHash, sectionHash), kept);
    if |p| <= |fullHash| {
      assert p == fullHash[..|p|];
    } else {
      PastFirstLine(fullHash, sectionHash, p);
      SectionLinePrefix(sectionHash, p[|fullHash| + 1..]);
    }
  }
}
