/** File versions: a file in a message replaced in place, every version it replaced kept. */
module FileVersions {
  import opened Common
  import opened Tables
  import Text

  datatype Outcome = NoSuchFile | TooManyVersions | Replaced(db: Db)

  /** The kept versions of an attachment. */
  function KeptVersions(db: Db, a: Id): set<VersionKey> {
    set v | v in db.versions && v.attachment == a
  }

  /** The version an attachments row is, as a kept row. */
  function AsKept(cur: Attachment): Version {
    Version(cur.file, cur.versionBy.Or(cur.uploadedBy), cur.versionAt.GetOr(cur.createdAt), cur.comment)
  }

  /** replaceCurrent: `next` becomes current, the version it replaces is kept. */
  function ReplaceCurrent(db: Db, a: Id, next: File, byUser: Id, comment: Option<string>, now: string): Outcome {
    if a !in db.attachments then NoSuchFile
    else if |KeptVersions(db, a)| >= MAX_VERSIONS - 1 then TooManyVersions
    else
      var cur := db.attachments[a];
      Replaced(db.(
        versions := db.versions[VersionKey(a, cur.versionNo) := AsKept(cur)],
        attachments := db.attachments[a := cur.(file := next.(thumbState := Some(next.thumbState.GetOr("none"))),
                                                versionNo := cur.versionNo + 1, comment := comment,
                                                versionBy := Some(byUser), versionAt := Some(now))]))
  }

  method Replace(db: Database, a: Id, next: File, byUser: Id, comment: Option<string>,
                 now: string) returns (outcome: Outcome)
    modifies db`versions, db`attachments
    ensures outcome == ReplaceCurrent(old(db.Rows()), a, next, byUser, comment, now)
    ensures db.Rows() == if outcome.Replaced? then outcome.db else old(db.Rows())
  {
    if a !in db.attachments { return NoSuchFile; }
    var cur := db.attachments[a];
    var kept := |set v | v in db.versions && v.attachment == a|;
    if kept >= MAX_VERSIONS - 1 { return TooManyVersions; }
    db.versions := db.versions[VersionKey(a, cur.versionNo) :=
      Version(cur.file, cur.versionBy.Or(cur.uploadedBy), cur.versionAt.GetOr(cur.createdAt), cur.comment)];
    db.attachments := db.attachments[a := cur.(file := next.(thumbState := Some(next.thumbState.GetOr("none"))),
                                               versionNo := cur.versionNo + 1, comment := comment,
                                               versionBy := Some(byUser), versionAt := Some(now))];
    outcome := Replaced(db.Rows());
  }

  // A stored upload, with its thumbnail when it is a picture.
  datatype Uploaded = Uploaded(name: string, mime: string, size: nat, key: string, thumb: Option<string>)

  /** fromUpload and fromVersion: the file columns of an uploaded version, or of a kept one. */
  function FromUpload(u: Uploaded): File {
    var state := if u.thumb.Some? then "done" else "none";
    File(u.key, Some(u.key), u.name, Some(u.mime), Some(u.size), u.thumb, Some(state))
  }

  function FromVersion(v: Version): File { v.file }

  // ---------------------------------------------------------------------------- the list of versions

  datatype Entry = Entry(no: nat, name: string, mime: Option<string>, size: Option<nat>, key: string,
    uploadedAt: string,
                         comment: Option<string>, uploadedBy: Option<Id>, current: bool)
  {
    function Past(): Entry { this.(current := false) }
  }

  function EntryOf(no: nat, v: Version, current: bool): Entry {
    Entry(no, v.file.originalName, v.file.mimeType, v.file.size, v.file.Key(), v.uploadedAt, v.comment, v.uploadedBy,
      current)
  }

  ghost function KeptNumbers(db: Db, a: Id): (r: seq<nat>)
    ensures Ascending(r)
    ensures forall n: nat :: n in r <==> VersionKey(a, n) in db.versions
  {
    var nos := set v | v in db.versions && v.attachment == a :: v.no;
    assert forall n: nat | VersionKey(a, n) in db.versions :: VersionKey(a, n).no in nos;
    SortedIds(nos)
  }

  function KeptLine(db: Db, a: Id, no: nat): Entry
    requires VersionKey(a, no) in db.versions
  {
    EntryOf(no, db.versions[VersionKey(a, no)], false)
  }

  // ORDER BY version_no DESC.
  function LinesFor(db: Db, a: Id, nos: seq<nat>): (r: seq<Entry>)
    requires forall i | 0 <= i < |nos| :: VersionKey(a, nos[i]) in db.versions
    ensures |r| == |nos|
    ensures Past(r) == r
  {
    if nos == [] then [] else [KeptLine(db, a, nos[|nos| - 1])] + LinesFor(db, a, nos[..|nos| - 1])
  }

  lemma {:induction false} LinesForSame(db: Db, db': Db, a: Id, nos: seq<nat>)
    requires forall i | 0 <= i < |nos| ::
               VersionKey(a, nos[i]) in db.versions && VersionKey(a, nos[i]) in db'.versions &&
                                          db.versions[VersionKey(a, nos[i])] == db'.versions[VersionKey(a, nos[i])]
    ensures LinesFor(db, a, nos) == LinesFor(db', a, nos)
  {
    if nos != [] {
      LinesForSame(db, db', a, nos[..|nos| - 1]);
    }
  }

  ghost function KeptLines(db: Db, a: Id): (r: seq<Entry>)
    ensures Past(r) == r
  {
    var nos := KeptNumbers(db, a);
    assert forall i | 0 <= i < |nos| :: nos[i] in nos;
    LinesFor(db, a, nos)
  }

  /** listVersions: the current one, then the kept rows ORDER BY version_no DESC. (`key` stands for the
      download each line opens.) */
  ghost function ListVersions(db: Db, a: Id): (r: seq<Entry>)
    requires a in db.attachments
    ensures |r| == 1 + |KeptLines(db, a)|
  {
    [EntryOf(db.attachments[a].versionNo, AsKept(db.attachments[a]), true)] + KeptLines(db, a)
  }

  function Past(entries: seq<Entry>): (r: seq<Entry>)
    ensures |r| == |entries|
  {
    seq(|entries|, i requires 0 <= i < |entries| => entries[i].Past())
  }

  /** The number of kept versions is one less than the current one's number. */
  lemma KeptCount(db: Db, a: Id)
    requires ValidVersions(db) && a in db.attachments
    ensures |KeptVersions(db, a)| == db.attachments[a].versionNo - 1
  {
    Numbered(KeptVersions(db, a), a, db.attachments[a].versionNo - 1);
  }

  lemma {:induction false} Numbered(s: set<VersionKey>, a: Id, n: nat)
    requires forall v :: v in s <==> v.attachment == a && 1 <= v.no <= n
    ensures |s| == n
  {
    if n == 0 {
      assert s == {};
    } else {
      Numbered(s - {VersionKey(a, n)}, a, n - 1);
    }
  }

  /** Replacing keeps the numbering exact and within fifty, and is refused exactly at fifty. */
  lemma ReplaceKeepsNumbering(db: Db, a: Id, next: File, byUser: Id, comment: Option<string>, now: string)
    requires ValidRows(db)
    ensures var outcome := ReplaceCurrent(db, a, next, byUser, comment, now);
            && (outcome == TooManyVersions <==> a in db.attachments && db.attachments[a].versionNo == MAX_VERSIONS)
            && (outcome.Replaced? ==>
                  ValidRows(outcome.db) && a in outcome.db.attachments
                  && outcome.db.attachments[a].versionNo == db.attachments[a].versionNo + 1)
  {
    if a in db.attachments {
      KeptCount(db, a);
      var outcome := ReplaceCurrent(db, a, next, byUser, comment, now);
      if outcome.Replaced? {
        forall b, n: nat | b in outcome.db.attachments && 1 <= n < outcome.db.attachments[b].versionNo
          ensures VersionKey(b, n) in outcome.db.versions
        {
          assert b != a || n != db.attachments[a].versionNo ==> VersionKey(b, n) in db.versions;
        }
      }
    }
  }

  /** Replacing puts one new line on top of the list as it was, with only its current mark cleared. */
  lemma ReplacePutsOneLineOnTop(db: Db, a: Id, next: File, byUser: Id, comment: Option<string>, now: string)
    requires ValidRows(db) && ReplaceCurrent(db, a, next, byUser, comment, now).Replaced?
    ensures var db' := ReplaceCurrent(db, a, next, byUser, comment, now).db;
            ListVersions(db', a) ==
            [Entry(db.attachments[a].versionNo + 1, next.originalName, next.mimeType, next.size, next.Key(), now,
              comment, Some(byUser), true)]
            + Past(ListVersions(db, a))
  {
    var db' := ReplaceCurrent(db, a, next, byUser, comment, now).db;
    ListGrows(db, db', a, db'.attachments[a]);
  }

  lemma ListGrows(db: Db, db': Db, a: Id, now: Attachment)
    requires a in db.attachments && a in db'.attachments && db'.attachments[a] == now
    requires db'.versions == db.versions[VersionKey(a, db.attachments[a].versionNo) := AsKept(db.attachments[a])]
    requires forall n: nat | VersionKey(a, n) in db.versions :: n < db.attachments[a].versionNo
    ensures ListVersions(db', a) == [EntryOf(now.versionNo, AsKept(now), true)] + Past(ListVersions(db, a))
  {
    var cur := db.attachments[a];
    KeptLinesGrow(db, db', a, cur.versionNo, AsKept(cur));
    PastCons(EntryOf(cur.versionNo, AsKept(cur), true), KeptLines(db, a));
  }

  lemma PastCons(e: Entry, rest: seq<Entry>)
    ensures Past([e] + rest) == [e.Past()] + Past(rest)
  {
  }

  lemma NumbersGrow(db: Db, db': Db, a: Id, no: nat)
    requires forall n: nat :: VersionKey(a, n) in db'.versions <==> VersionKey(a, n) in db.versions || n == no
    requires forall n: nat | VersionKey(a, n) in db.versions :: n < no
    ensures KeptNumbers(db', a) == KeptNumbers(db, a) + [no]
  {
    var nos, nos' := KeptNumbers(db, a), KeptNumbers(db', a);
    forall i | 0 <= i < |nos| ensures nos[i] < no {
      assert nos[i] in nos;
    }
    AscendingUnique(nos', nos + [no]);
  }

  lemma KeptLinesGrow(db: Db, db': Db, a: Id, no: nat, v: Version)
    requires db'.versions == db.versions[VersionKey(a, no) := v]
    requires forall n: nat | VersionKey(a, n) in db.versions :: n < no
    ensures KeptLines(db', a) == [EntryOf(no, v, false)] + KeptLines(db, a)
  {
    hide KeptNumbers, Past;
    var nos := KeptNumbers(db, a);
    NumbersGrow(db, db', a, no);
    assert forall i | 0 <= i < |nos| :: nos[i] in nos;
    LinesForSame(db, db', a, nos);
    assert (nos + [no])[..|nos|] == nos;
  }

  // ---------------------------------------------------------------------------- any sequence of changes

  // A new version uploaded, or a kept one restored; by whom and when.
  datatype Change =
    | Upload(upload: Uploaded, comment: Option<string>, byUser: Id, now: string)
    | Restore(no: nat, byUser: Id, now: string)

  function RestoredNote(no: nat): string { "Restored version " + Text.Decimal(no) }

  /** POST .../versions and .../versions/:no/restore; a refused or impossible change leaves the rows. */
  function ApplyChange(db: Db, a: Id, change: Change): Db {
    var outcome :=
      match change
      case Upload(upload, comment, byUser, now) => ReplaceCurrent(db, a, FromUpload(upload), byUser, comment, now)
      case Restore(no, byUser, now) =>
        if VersionKey(a, no) in db.versions
        then ReplaceCurrent(db, a, FromVersion(db.versions[VersionKey(a, no)]), byUser, Some(RestoredNote(no)), now)
        else NoSuchFile;
    if outcome.Replaced? then outcome.db else db
  }

  function ApplyChanges(db: Db, a: Id, changes: seq<Change>): Db
    decreases |changes|
  {
    if changes == [] then db
    else ApplyChanges(ApplyChange(db, a, changes[0]), a, changes[1..])
  }

  /** A list of versions with new lines on top: every line a person saw before is still there, in
      order, with its file, uploader, time and note. */
  predicate GrewOnTop(before: seq<Entry>, after: seq<Entry>) {
    |before| <= |after| && Past(after[|after| - |before|..]) == Past(before)
  }

  /** Over any uploads and restores, by anyone at any times, the numbering stays exact and the list only
      grows on top. */
  lemma {:induction false} ChangesKeepEveryVersion(db: Db, a: Id, changes: seq<Change>)
    requires ValidRows(db) && a in db.attachments
    ensures var db' := ApplyChanges(db, a, changes);
            ValidRows(db') && a in db'.attachments && GrewOnTop(ListVersions(db, a), ListVersions(db', a))
    decreases |changes|
  {
    if changes == [] {
      assert ListVersions(db, a)[0..] == ListVersions(db, a);
    } else {
      var mid := ApplyChange(db, a, changes[0]);
      OneChange(db, a, changes[0]);
      ChangesKeepEveryVersion(mid, a, changes[1..]);
      GrewTrans(ListVersions(db, a), ListVersions(mid, a), ListVersions(ApplyChanges(db, a, changes), a));
    }
  }

  lemma GrewTrans(first: seq<Entry>, second: seq<Entry>, third: seq<Entry>)
    requires GrewOnTop(first, second) && GrewOnTop(second, third)
    ensures GrewOnTop(first, third)
  {
    var g, h := |third| - |second|, |second| - |first|;
    forall i | 0 <= i < |first| ensures third[g + h..][i].Past() == first[i].Past() {
      assert Past(third[g..])[h + i] == Past(second)[h + i];
      assert Past(second[h..])[i] == Past(first)[i];
    }
  }

  lemma OneChange(db: Db, a: Id, change: Change)
    requires ValidRows(db) && a in db.attachments
    ensures var db' := ApplyChange(db, a, change);
            ValidRows(db') && a in db'.attachments && GrewOnTop(ListVersions(db, a), ListVersions(db', a))
  {
    hide ReplaceCurrent, ListVersions, ValidRows, KeptLines;
    var before := ListVersions(db, a);
    assert before[0..] == before;
    if change.Upload? || VersionKey(a, change.no) in db.versions {
      var next := if change.Upload? then FromUpload(change.upload)
        else FromVersion(db.versions[VersionKey(a, change.no)]);
      var comment := if change.Upload? then change.comment else Some(RestoredNote(change.no));
      var outcome := ReplaceCurrent(db, a, next, change.byUser, comment, change.now);
      ReplaceKeepsNumbering(db, a, next, change.byUser, comment, change.now);
      if outcome.Replaced? {
        ReplacePutsOneLineOnTop(db, a, next, change.byUser, comment, change.now);
        assert ListVersions(outcome.db, a)[1..] == Past(before);
        assert forall i | 0 <= i < |before| :: Past(before)[i].Past() == before[i].Past();
      }
    }
  }

  // A file's columns as they come back from a restored version.
  function Restored(file: File): File { file.(thumbState := Some(file.thumbState.GetOr("none"))) }

  /** Restoring makes the kept version of that number current again, as a version after the newest, noted
      as restored; a number not kept, or a fiftieth version reached, changes nothing. */
  lemma RestoreTakesThatVersion(db: Db, a: Id, no: nat, byUser: Id, now: string)
    requires ValidRows(db) && a in db.attachments
    ensures var db', att := ApplyChange(db, a, Restore(no, byUser, now)), db.attachments[a];
            if 1 <= no < att.versionNo < 50
            then VersionKey(a, no) in db.versions && a in db'.attachments
                 && db'.attachments[a] ==
                    Attachment(att.message, Restored(db.versions[VersionKey(a, no)].file), att.uploadedBy,
                      att.createdAt, att.versionNo + 1, Some(byUser), Some(now),
                      Some("Restored version " + Text.Decimal(no)))
                 && ChangesOnly(db, db', a)
            else db' == db
  {
    if VersionKey(a, no) in db.versions {
      ReplaceGives(db, a, FromVersion(db.versions[VersionKey(a, no)]), byUser, Some(RestoredNote(no)), now);
    }
    hide ReplaceCurrent, ChangesOnly;
  }

  lemma ReplaceGives(db: Db, a: Id, next: File, byUser: Id, comment: Option<string>, now: string)
    requires ValidRows(db) && a in db.attachments
    ensures var outcome, att := ReplaceCurrent(db, a, next, byUser, comment, now), db.attachments[a];
            && (outcome.Replaced? <==> att.versionNo < 50)
            && (outcome.Replaced? ==>
                  a in outcome.db.attachments && ChangesOnly(db, outcome.db, a)
                  && outcome.db.attachments[a] ==
                     Attachment(att.message, Restored(next), att.uploadedBy, att.createdAt, att.versionNo + 1,
                       Some(byUser), Some(now), comment))
  {
    KeptCount(db, a);
  }

  /** An upload becomes the next version, with the columns of the stored file. */
  lemma UploadTakesTheFile(db: Db, a: Id, u: Uploaded, comment: Option<string>, byUser: Id, now: string)
    requires ValidRows(db) && a in db.attachments
    ensures var db', att := ApplyChange(db, a, Upload(u, comment, byUser, now)), db.attachments[a];
            if att.versionNo < 50
            then a in db'.attachments && ChangesOnly(db, db', a)
                 && db'.attachments[a] ==
                    Attachment(att.message, File(u.key, Some(u.key), u.name, Some(u.mime), Some(u.size), u.thumb,
                      Some(if u.thumb == None then "none" else "done")), att.uploadedBy, att.createdAt,
                      att.versionNo + 1, Some(byUser), Some(now), comment)
            else db' == db
  {
    ReplaceGives(db, a, FromUpload(u), byUser, comment, now);
    hide ReplaceCurrent, ChangesOnly;
  }

  // Nothing but the attachment's row and the kept copy of the version it was.
  predicate ChangesOnly(db: Db, db': Db, a: Id) {
    && db' == db.(attachments := db'.attachments, versions := db'.versions)
    && db'.attachments.Keys == db.attachments.Keys
    && (forall b | b in db.attachments && b != a :: db'.attachments[b] == db.attachments[b])
    && (forall v | v in db'.versions :: v in db.versions || (a in db.attachments && v == VersionKey(a,
          db.attachments[a].versionNo)))
    && (forall v | v in db.versions :: v in db'.versions && db'.versions[v] == db.versions[v])
  }

  /** A version once shown can be had back: after any later changes, restoring its number, if fifty are not
      reached, makes its file the current one. */
  lemma {:induction false} RestoreBringsBack(db: Db, a: Id, changes: seq<Change>, byUser: Id, now: string)
    requires ValidRows(db) && a in db.attachments
    requires a in ApplyChanges(db, a, changes).attachments
    requires db.attachments[a].versionNo < ApplyChanges(db, a, changes).attachments[a].versionNo < 50
    ensures var back := ApplyChange(ApplyChanges(db, a, changes), a, Restore(db.attachments[a].versionNo, byUser, now));
            a in back.attachments && back.attachments[a].file == Restored(db.attachments[a].file)
  {
    ChangesKeepEveryVersion(db, a, changes);
    KeptForGood(db, a, changes);
    hide ValidRows;
    RestoreTakesThatVersion(ApplyChanges(db, a, changes), a, db.attachments[a].versionNo, byUser, now);
  }

  lemma {:induction false} KeptForGood(db: Db, a: Id, changes: seq<Change>)
    requires ValidRows(db) && a in db.attachments
    ensures var db' := ApplyChanges(db, a, changes);
            && (forall v | v in db.versions :: v in db'.versions && db'.versions[v] == db.versions[v])
            && a in db'.attachments && db.attachments[a].versionNo <= db'.attachments[a].versionNo
            && (if db'.attachments[a].versionNo == db.attachments[a].versionNo
                then db'.attachments[a].file == db.attachments[a].file
                else VersionKey(a, db.attachments[a].versionNo) in db'.versions
                     && db'.versions[VersionKey(a, db.attachments[a].versionNo)].file == db.attachments[a].file)
    decreases |changes|
  {
    if changes != [] {
      var mid := ApplyChange(db, a, changes[0]);
      OneChange(db, a, changes[0]);
      ChangeKeeps(db, a, changes[0]);
      hide ApplyChange, ValidRows;
      KeptForGood(mid, a, changes[1..]);
    }
  }

  /** One change leaves the row as it is, or keeps it as the version it was. */
  lemma ChangeKeeps(db: Db, a: Id, change: Change)
    requires ValidRows(db) && a in db.attachments
    ensures var db', att := ApplyChange(db, a, change), db.attachments[a];
            && (forall v | v in db.versions :: v in db'.versions && db'.versions[v] == db.versions[v])
            && a in db'.attachments
            && (if db'.attachments[a].versionNo == att.versionNo then db'.attachments[a] == att
                else db'.attachments[a].versionNo == att.versionNo + 1
                     && VersionKey(a, att.versionNo) in db'.versions
                     && db'.versions[VersionKey(a, att.versionNo)].file == att.file)
  {
  }

  /** The first version was put up by whoever shared the file, when the file was. */
  lemma FirstVersionIsTheSharers(db: Db, a: Id)
    requires a in db.attachments && db.attachments[a].versionBy == None && db.attachments[a].versionAt == None
    ensures ListVersions(db, a)[0].uploadedBy == db.attachments[a].uploadedBy
            && ListVersions(db, a)[0].uploadedAt == db.attachments[a].createdAt
  {
  }
}
