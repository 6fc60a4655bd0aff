/** passports/management/commands/cleanup_orphaned_files.py: the command
    that removes mirror and history files whose passport row is gone. The
    data directory is a `FileStore`; `os.remove` raising `OSError` is
    modelled by the set `fails` of file names whose removal raises. */
module Cleanup {
  import opened Common
  import opened Models
  import opened Utils

  // ---------------------------------------------------------------------
  // Id extraction from file names

  /** `s.split('.')[0]`: the text before the first dot. */
  function BeforeDot(s: string): (r: string)
    ensures '.' !in r
    ensures r <= s
    ensures |r| < |s| ==> s[|r|] == '.'
    ensures '.' !in s ==> r == s
  {
    if s == [] || s[0] == '.' then [] else [s[0]] + BeforeDot(s[1..])
  }

  /** Python's `s.replace(pat, '')` for a non-empty pattern: occurrences are
      removed left to right, without overlap, in one pass. */
  function RemoveAll(s: string, pat: string): (r: string)
    requires pat != []
    ensures |r| <= |s|
    decreases |s|
  {
    if s == [] then []
    else if StartsWith(s, pat) then RemoveAll(s[|pat|..], pat)
    else [s[0]] + RemoveAll(s[1..], pat)
  }

  /** A prefix without the pattern's first character is kept as it is. */
  lemma {:induction false} KeepPrefix(a: string, rest: string, pat: string)
    requires pat != [] && pat[0] !in a
    ensures RemoveAll(a + rest, pat) == a + RemoveAll(rest, pat)
    decreases |a|
  {
    if a == [] {
      assert a + rest == rest;
    } else {
      assert (a + rest)[0] == a[0];
      assert !StartsWith(a + rest, pat);
      assert (a + rest)[1..] == a[1..] + rest;
      KeepPrefix(a[1..], rest, pat);
      assert a == [a[0]] + a[1..];
    }
  }

  /** A text that differs from the pattern at some position keeps its
      first character. */
  lemma KeepHead(s: string, pat: string, k: nat)
    requires pat != [] && k < |pat| && k < |s| && s[k] != pat[k]
    ensures RemoveAll(s, pat) == [s[0]] + RemoveAll(s[1..], pat)
  {
    if |pat| <= |s| {
      assert s[..|pat|][k] == s[k];
    }
  }

  /** A leading occurrence of the pattern is dropped. */
  lemma DropHead(rest: string, pat: string)
    requires pat != []
    ensures RemoveAll(pat + rest, pat) == RemoveAll(rest, pat)
  {
    assert (pat + rest)[..|pat|] == pat;
    assert (pat + rest)[|pat|..] == rest;
  }

  /** A text without the pattern's first character is kept, and a pattern
      appended to it is removed. */
  lemma RemoveAllTrailing(a: string, pat: string)
    requires pat != [] && pat[0] !in a
    ensures RemoveAll(a, pat) == a
    ensures RemoveAll(a + pat, pat) == a
  {
    KeepPrefix(a, [], pat);
    KeepPrefix(a, pat, pat);
    DropHead([], pat);
    assert a + [] == a && pat + [] == pat;
  }

  const HistoryTag: string := "_history"

  /** The id the command extracts from a directory entry, for names ending
      in `.json`: the part before the first dot, with every `_history`
      removed. Other names give nothing. */
  function FileId(name: string): (r: Option<string>)
    ensures r.Some? <==> EndsWith(name, ".json")
    ensures r.Some? && !Contains(BeforeDot(name), HistoryTag) ==> r.value == BeforeDot(name)
  {
    if EndsWith(name, ".json") then
      var id := BeforeDot(name);
      Some(if Contains(id, HistoryTag) then RemoveAll(id, HistoryTag) else id)
    else None
  }

  /** A well-formed id is recovered from its mirror file name. */
  lemma MirrorFileId(id: PassportId)
    requires WellFormedId(id)
    ensures FileId(MirrorName(id)) == Some(id)
    ensures FileIdFixed(MirrorName(id)) == Some(id)
  {
    EndsWithConcat(id, ".json");
    BeforeDotStops(id, ".json");
    NotContainsWithout(id, HistoryTag, 0, '_');
  }

  /** A well-formed id is recovered from its history file name. */
  lemma HistoryFileId(id: PassportId)
    requires WellFormedId(id)
    ensures FileId(HistoryName(id)) == Some(id)
    ensures FileIdFixed(HistoryName(id)) == Some(id)
  {
    var h := id + HistoryTag;
    assert HistoryName(id) == h + ".json";
    EndsWithConcat(h, ".json");
    BeforeDotStops(h, ".json");
    RemoveAllTrailing(id, HistoryTag);
    assert h[|id|..] == HistoryTag;
    ContainsAt(h, HistoryTag, |id|);
    NotContainsWithout(id, HistoryTag, 0, '_');
  }

  /** The text before the first dot of `a + b`, for `a` without a dot and
      `b` starting with one, is `a`. */
  lemma {:induction false} BeforeDotStops(a: string, b: string)
    requires '.' !in a && b != [] && b[0] == '.'
    ensures BeforeDot(a + b) == a
    decreases |a|
  {
    if a != [] {
      assert (a + b)[1..] == a[1..] + b;
      BeforeDotStops(a[1..], b);
    }
  }

  /** A pattern starting at position `i` is contained. */
  lemma {:induction false} ContainsAt(b: string, a: string, i: nat)
    requires i <= |b| && StartsWith(b[i..], a)
    ensures Contains(b, a)
    decreases i
  {
    if i > 0 {
      assert b[1..][i - 1..] == b[i..];
      ContainsAt(b[1..], a, i - 1);
    }
  }

  /** `files_in_directory` for a directory listing. */
  function FileIds(names: set<string>): (r: set<string>)
    ensures forall n :: n in names && FileId(n).Some? ==> FileId(n).value in r
    ensures forall x :: x in r ==> exists n :: n in names && FileId(n) == Some(x)
  {
    set n | n in names && FileId(n).Some? :: FileId(n).value
  }

  // ---------------------------------------------------------------------
  // The effect of the removal loop, independent of iteration order

  /** An existing file whose removal raises. */
  predicate Blocked(files: map<string, Doc>, fails: set<string>, t: string)
  {
    t in files && t in fails
  }

  /** The files the loop removes: existing, removable, and either an
      orphan's mirror or the history of an orphan whose mirror did not
      raise. */
  function Removed(files: map<string, Doc>, orphans: set<PassportId>, fails: set<string>): (r: set<string>)
    ensures forall t :: t in r ==> t in files && t !in fails
  {
    set t, o | t in files && t !in fails && o in orphans
                 && (t == MirrorName(o) || (t == HistoryName(o) && !Blocked(files, fails, MirrorName(o)))) :: t
  }

  /** The orphans the loop counts: those whose removals raised nothing. */
  function Counted(files: map<string, Doc>, orphans: set<PassportId>, fails: set<string>): (r: set<PassportId>)
    ensures r <= orphans
  {
    set o | o in orphans && !Blocked(files, fails, MirrorName(o)) && !Blocked(files, fails, HistoryName(o))
  }

  /** The files one orphan's turn removes: its mirror when present and
      removable, then its history when present and removable, unless the
      mirror's removal raised. */
  function RemovedFor(files: map<string, Doc>, o: PassportId, fails: set<string>): (r: set<string>)
    ensures forall t :: t in r ==> t in files && t !in fails
    ensures Blocked(files, fails, MirrorName(o)) ==> r == {}
  {
    var m, h := MirrorName(o), HistoryName(o);
    (if m in files && m !in fails then {m} else {})
      + (if h in files && h !in fails && !Blocked(files, fails, m) then {h} else {})
  }

  /** Adding one orphan adds its own turn's removals. */
  lemma RemovedStep(files: map<string, Doc>, done: set<PassportId>, o: PassportId, fails: set<string>)
    ensures Removed(files, done + {o}, fails) == Removed(files, done, fails) + RemovedFor(files, o, fails)
  {
    var lhs := Removed(files, done + {o}, fails);
    var rhs := Removed(files, done, fails) + RemovedFor(files, o, fails);
    forall t | t in lhs ensures t in rhs {
      var o' :| o' in done + {o} && (t == MirrorName(o') || (t == HistoryName(o') && !Blocked(files, fails, MirrorName(o'))));
      if o' != o {
        assert t in Removed(files, done, fails);
      }
    }
  }

  /** One orphan's turn, run on the directory left by the earlier turns,
      removes what `RemovedFor` says of the original directory: a file
      that raises is never removed, so it is still there, and a file an
      earlier turn removed is skipped as absent. */
  lemma TurnOnRemaining(files0: map<string, Doc>, done: set<PassportId>, o: PassportId, fails: set<string>)
    ensures var cur := files0 - Removed(files0, done, fails);
      && cur - RemovedFor(cur, o, fails) == files0 - Removed(files0, done + {o}, fails)
      && Blocked(cur, fails, MirrorName(o)) == Blocked(files0, fails, MirrorName(o))
      && Blocked(cur, fails, HistoryName(o)) == Blocked(files0, fails, HistoryName(o))
  {
    var cur := files0 - Removed(files0, done, fails);
    RemovedStep(files0, done, o, fails);
    var a := cur - RemovedFor(cur, o, fails);
    var b := files0 - Removed(files0, done + {o}, fails);
    assert a.Keys == b.Keys;
  }

  lemma CountedStep(files: map<string, Doc>, done: set<PassportId>, o: PassportId, fails: set<string>)
    requires o !in done
    ensures var counts := !Blocked(files, fails, MirrorName(o)) && !Blocked(files, fails, HistoryName(o));
      |Counted(files, done + {o}, fails)| == |Counted(files, done, fails)| + (if counts then 1 else 0)
  {
    var counts := !Blocked(files, fails, MirrorName(o)) && !Blocked(files, fails, HistoryName(o));
    assert Counted(files, done + {o}, fails) == Counted(files, done, fails) + (if counts then {o} else {});
  }

  /** Moving one orphan from the remaining ones to the handled ones keeps
      the two a partition of all orphans. */
  lemma MoveOne<T>(all: set<T>, remaining: set<T>, done: set<T>, x: T)
    requires remaining !! done && remaining + done == all && x in remaining
    ensures (remaining - {x}) !! (done + {x}) && (remaining - {x}) + (done + {x}) == all
    ensures |remaining - {x}| < |remaining|
  {
  }

  /** `files_in_directory` built by the loop over the listing, with the
      corrected extraction `FileIdFixed`. */
  method CollectIds(names: set<string>) returns (ids: set<string>)
    ensures ids == FixedFileIds(names)
  {
    ids := {};
    var remaining := names;
    while remaining != {}
      invariant remaining <= names
      invariant ids == FixedFileIds(names - remaining)
      decreases |remaining|
    {
      var name :| name in remaining;
      var fileId := FileIdFixed(name);
      if fileId.Some? {
        ids := ids + {fileId.value};
      }
      remaining := remaining - {name};
      assert names - remaining == (names - (remaining + {name})) + {name};
    }
  }

  /** `Command.handle`: collect the ids of the `.json` files, subtract the
      ids of the passport rows, and for each orphan remove `<id>.json`
      then `<id>_history.json` where present. An `OSError` ends that
      orphan's turn without counting it; the loop goes on. The final
      directory and count do not depend on the order of the orphans. Ids
      are extracted by `FileIdFixed`, which drops the names on which the
      code's extraction `FileId` goes wrong. */
  method Handle(fs: FileStore, dbIds: set<PassportId>, fails: set<string>) returns (deleted: nat)
    requires fs.Valid()
    modifies fs
    ensures fs.Valid() && fs.dirExists == old(fs.dirExists)
    ensures var orphans := FixedFileIds(old(fs.files).Keys) - dbIds;
      && fs.files == old(fs.files) - Removed(old(fs.files), orphans, fails)
      && deleted == |Counted(old(fs.files), orphans, fails)|
    ensures !old(fs.dirExists) ==> deleted == 0 && fs.files == old(fs.files)
  {
    var filesInDirectory: set<string> := {};
    if fs.dirExists {
      filesInDirectory := CollectIds(fs.files.Keys);
    } else {
      assert fs.files.Keys == {};
    }
    var orphans := filesInDirectory - dbIds;
    deleted := RemoveOrphans(fs, orphans, fails);
  }

  /** The loop of `Command.handle` over the orphaned ids, in whatever
      order the set yields them. */
  method RemoveOrphans(fs: FileStore, orphans: set<PassportId>, fails: set<string>) returns (deleted: nat)
    requires fs.Valid()
    modifies fs
    ensures fs.Valid() && fs.dirExists == old(fs.dirExists)
    ensures fs.files == old(fs.files) - Removed(old(fs.files), orphans, fails)
    ensures deleted == |Counted(old(fs.files), orphans, fails)|
  {
    ghost var files0 := fs.files;
    ghost var done: set<PassportId> := {};
    var remaining := orphans;
    deleted := 0;
    while remaining != {}
      invariant remaining !! done && remaining + done == orphans
      invariant fs.dirExists == old(fs.dirExists)
      invariant fs.files == files0 - Removed(files0, done, fails)
      invariant deleted == |Counted(files0, done, fails)|
      invariant fs.Valid()
      decreases |remaining|
    {
      var orphanId :| orphanId in remaining;
      TurnOnRemaining(files0, done, orphanId, fails);
      CountedStep(files0, done, orphanId, fails);
      MoveOne(orphans, remaining, done, orphanId);
      var counted := RemoveOrphan(fs, orphanId, fails);
      if counted {
        deleted := deleted + 1;
      }
      remaining := remaining - {orphanId};
      done := done + {orphanId};
    }
  }

  /** One turn of the loop in `Command.handle`: remove `<id>.json`, then
      `<id>_history.json`, each only where present. An `OSError` from either
      removal ends the turn, and the orphan is counted only when neither
      raised. */
  method RemoveOrphan(fs: FileStore, orphanId: PassportId, fails: set<string>) returns (counted: bool)
    requires fs.Valid()
    modifies fs
    ensures fs.Valid() && fs.dirExists == old(fs.dirExists)
    ensures fs.files == old(fs.files) - RemovedFor(old(fs.files), orphanId, fails)
    ensures counted <==> !Blocked(old(fs.files), fails, MirrorName(orphanId))
                         && !Blocked(old(fs.files), fails, HistoryName(orphanId))
  {
    var filePath := MirrorName(orphanId);
    var historyFile := HistoryName(orphanId);
    counted := false;
    if filePath in fs.files && filePath in fails {
      // os.remove raises: logged, not counted.
    } else {
      if filePath in fs.files {
        fs.files := fs.files - {filePath};
      }
      if historyFile in fs.files && historyFile in fails {
        // os.remove raises: logged, not counted.
      } else {
        if historyFile in fs.files {
          fs.files := fs.files - {historyFile};
        }
        counted := true;
      }
    }
  }

  // ---------------------------------------------------------------------
  // What the command spares

  /** A removed file always belongs to an orphan, and a live passport's
      mirror is never removed. Its history is removed only when
      `<id>_history` itself is an orphan. */
  lemma LiveFilesAsWritten(files: map<string, Doc>, dbIds: set<PassportId>, fails: set<string>, id: PassportId)
    requires id in dbIds && WellFormedId(id)
    ensures var orphans := FileIds(files.Keys) - dbIds;
      && MirrorName(id) !in Removed(files, orphans, fails)
      && (HistoryName(id) in Removed(files, orphans, fails) ==> id + HistoryTag in orphans)
  {
    var orphans := FileIds(files.Keys) - dbIds;
    var r := Removed(files, orphans, fails);
    if MirrorName(id) in r {
      var o :| o in orphans && (MirrorName(id) == MirrorName(o) || MirrorName(id) == HistoryName(o));
      FileNamesDistinct(id, o);
    }
    if HistoryName(id) in r {
      var o :| o in orphans && (HistoryName(id) == MirrorName(o) || HistoryName(id) == HistoryName(o));
      FileNamesDistinct(id, o);
      if HistoryName(id) == MirrorName(o) {
        HistoryIsMirrorOf(id);
        FileNamesDistinct(id + HistoryTag, o);
      }
    }
  }

  /** `p[0] + p + p[1..]`: the pattern with its first character doubled
      and its tail repeated. */
  function StrayText(pat: string): (r: string)
    requires pat != []
    ensures |r| == 2 * |pat|
  {
    [pat[0]] + pat + pat[1..]
  }

  lemma StrayTextChars(pat: string, c: char)
    requires pat != [] && c !in pat
    ensures c !in StrayText(pat)
  {
    assert pat == [pat[0]] + pat[1..];
  }

  /** `x + StrayText(p)` contains `p` and collapses to `x + p` when `p`'s
      first character occurs neither in `x` nor again in `p`: the one
      occurrence is removed and the characters around it form another. */
  lemma StrayRemoval(x: string, pat: string)
    requires |pat| >= 2 && pat[0] !in x && pat[0] !in pat[1..]
    ensures Contains(x + StrayText(pat), pat)
    ensures RemoveAll(x + StrayText(pat), pat) == x + pat
  {
    var t := StrayText(pat);
    assert (x + t)[|x| + 1..] == pat + pat[1..];
    ContainsAt(x + t, pat, |x| + 1);
    KeepPrefix(x, t, pat);
    assert t[1] == pat[0] && pat[1..][0] == pat[1];
    KeepHead(t, pat, 1);
    assert t[1..] == pat + pat[1..];
    DropHead(pat[1..], pat);
    KeepPrefix(pat[1..], [], pat);
    assert pat[1..] + [] == pat[1..];
    assert [pat[0]] + pat[1..] == pat;
  }

  /** The name `x__historyhistory.json` of a stray file next to the files
      of passport `x`. */
  function StrayName(x: PassportId): (r: string)
  {
    x + StrayText(HistoryTag) + ".json"
  }

  /** For a well-formed id `x`, the stray name yields the id `x_history`. */
  lemma StrayFileId(x: PassportId)
    requires WellFormedId(x)
    ensures FileId(StrayName(x)) == Some(x + HistoryTag)
  {
    var p := HistoryTag;
    var stray := x + StrayText(p);
    assert |p| == 8 && p[0] == '_' && '.' !in p;
    assert p[1..] == "history";
    StrayTextChars(p, '.');
    StrayRemoval(x, p);
    EndsWithConcat(stray, ".json");
    BeforeDotStops(stray, ".json");
  }

  /** With `x` a live passport, a stray file makes `x_history` an orphan
      whose "mirror", `x_history.json`, is the live passport's history, so
      the command removes that history. */
  lemma StrayNameRemovesLiveHistory(x: PassportId)
    requires WellFormedId(x)
    ensures var files := map[MirrorName(x) := OtherDoc, HistoryName(x) := OtherDoc, StrayName(x) := OtherDoc];
      && x + HistoryTag in FileIds(files.Keys) - {x}
      && HistoryName(x) in Removed(files, FileIds(files.Keys) - {x}, {})
  {
    var files := map[MirrorName(x) := OtherDoc, HistoryName(x) := OtherDoc, StrayName(x) := OtherDoc];
    var orphans := FileIds(files.Keys) - {x};
    var o := x + HistoryTag;
    StrayFileId(x);
    assert StrayName(x) in files.Keys;
    assert o in orphans by { assert |o| > |x|; }
    HistoryIsMirrorOf(x);
    RemovedMirror(files, orphans, {}, o);
  }

  /** `<x>_history.json` is the mirror name of the id `x_history`. */
  lemma HistoryIsMirrorOf(x: PassportId)
    ensures HistoryName(x) == MirrorName(x + HistoryTag)
  {
    assert HistoryTag + ".json" == "_history.json";
  }

  /** An existing, removable mirror of an orphan is removed. */
  lemma RemovedMirror(files: map<string, Doc>, orphans: set<PassportId>, fails: set<string>, o: PassportId)
    requires o in orphans && MirrorName(o) in files && MirrorName(o) !in fails
    ensures MirrorName(o) in Removed(files, orphans, fails)
  {
  }

  /** The evidently intended extraction: an id that still holds `_history`
      after the replacement does not name a passport, so it is dropped. */
  function FileIdFixed(name: string): (r: Option<string>)
    ensures r.Some? ==> FileId(name) == r && !Contains(r.value, HistoryTag)
    ensures FileId(name).Some? && !Contains(FileId(name).value, HistoryTag) ==> r == FileId(name)
  {
    match FileId(name)
    case Some(id) => if Contains(id, HistoryTag) then None else Some(id)
    case None => None
  }

  /** `files_in_directory` under the corrected extraction. */
  function FixedFileIds(names: set<string>): (r: set<string>)
    ensures forall x :: x in r ==> !Contains(x, HistoryTag)
    ensures forall x :: x in r ==> exists n :: n in names && FileIdFixed(n) == Some(x)
  {
    set n | n in names && FileIdFixed(n).Some? :: FileIdFixed(n).value
  }

  /** The corrected extraction only ever drops ids: every id it yields the
      code's extraction yields as well. */
  lemma FixedFileIdsWithin(names: set<string>)
    ensures FixedFileIds(names) <= FileIds(names)
  {
  }

  /** Under the corrected extraction the files of every live, well-formed
      passport survive: neither its mirror nor its history is removed. */
  lemma FixedCleanupSparesLiveFiles(files: map<string, Doc>, dbIds: set<PassportId>, fails: set<string>, id: PassportId)
    requires id in dbIds && WellFormedId(id)
    ensures var orphans := FixedFileIds(files.Keys) - dbIds;
      && MirrorName(id) !in Removed(files, orphans, fails)
      && HistoryName(id) !in Removed(files, orphans, fails)
  {
    var orphans := FixedFileIds(files.Keys) - dbIds;
    var r := Removed(files, orphans, fails);
    if MirrorName(id) in r {
      var o :| o in orphans && (MirrorName(id) == MirrorName(o) || MirrorName(id) == HistoryName(o));
      FileNamesDistinct(id, o);
    }
    if HistoryName(id) in r {
      var o :| o in orphans && (HistoryName(id) == MirrorName(o) || HistoryName(id) == HistoryName(o));
      FileNamesDistinct(id, o);
      if HistoryName(id) == MirrorName(o) {
        HistoryIsMirrorOf(id);
        FileNamesDistinct(id + HistoryTag, o);
        assert StartsWith((id + HistoryTag)[|id|..], HistoryTag);
        ContainsAt(o, HistoryTag, |id|);
      }
    }
  }

  /** The count never exceeds the number of orphans, and with no failing
      removal every orphan is counted. */
  lemma CountBounds(files: map<string, Doc>, orphans: set<PassportId>, fails: set<string>)
    ensures |Counted(files, orphans, fails)| <= |orphans|
    ensures fails == {} ==> Counted(files, orphans, fails) == orphans
  {
    SubsetCard(Counted(files, orphans, fails), orphans);
  }

  lemma {:induction false} SubsetCard<T>(a: set<T>, b: set<T>)
    requires a <= b
    ensures |a| <= |b|
    decreases |b|
  {
    if a != {} {
      var x :| x in a;
      SubsetCard(a - {x}, b - {x});
    }
  }
}
