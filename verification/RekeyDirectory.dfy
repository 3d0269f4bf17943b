/** The offline sweep over every record file. */
module RekeyDirectory {
  import opened Basics
  import opened LocalRecords
  import opened Rekey

  type Files = map<string, Document>

  datatype Progress = Progress(files: Files, changed: nat, untouched: nat, ok: bool)

  /** One more file; the first error stops the sweep where it is. */
  function Advance(e: Env, p: Progress, key: string): Progress
    requires |e.secrets| >= 1
  {
    if !p.ok then p
    else if key !in p.files then p.(ok := false)
    else
      match RekeyFile(e, p.files[key], key)
      case Failed => p.(ok := false)
      case Unchanged => p.(untouched := p.untouched + 1)
      case Replaced(doc) => p.(files := p.files[key := doc], changed := p.changed + 1)
  }

  /** The state after the listed files; every prefix of the list is a point at which the sweep may be interrupted. */
  function Sweep(e: Env, files: Files, names: seq<string>): Progress
    requires |e.secrets| >= 1
  {
    if names == [] then Progress(files, 0, 0, true)
    else Advance(e, Sweep(e, files, names[..|names| - 1]), names[|names| - 1])
  }

  datatype Report = Stopped | Completed(changed: nat, untouched: nat)

  class Directory {
    var files: Files

    /** `rekeyRecord`: the links first, then one replacement if any credential was stale. */
    method RekeyRecord(e: Env, key: string, r: Record) returns (ok: bool, changed: bool)
      requires |e.secrets| >= 1 && key in files && Parse(e.checks, files[key], key) == Some(r)
      modifies this
      ensures match RekeyFile(e, old(files[key]), key)
              case Failed => !ok && files == old(files)
              case Unchanged => ok && !changed && files == old(files)
              case Replaced(doc) => ok && changed && files == old(files)[key := doc]
    {
      var out := RekeyLinks(e, r);
      var spec := RekeyedLinks(e, r, r.links);
      if out.LinksFailed? {
        return false, false;
      }
      assert spec.Some? && spec.value == out.links;
      if !out.changed {
        return true, false;
      }
      if !Writable(e.checks, RekeyedRecord(r, out.links)) || !e.disk(key) {
        return false, false;
      }
      files := files[key := Stored(RekeyedRecord(r, out.links))];
      return true, true;
    }

    /** The body of the loop: read, parse, rekey, count. */
    method RekeyNext(e: Env, key: string, changed: nat, untouched: nat) returns (ok: bool, changed': nat, untouched': nat)
      requires |e.secrets| >= 1
      modifies this
      ensures Progress(files, changed', untouched', ok) == Advance(e, Progress(old(files), changed, untouched, true), key)
    {
      if key !in files {
        return false, changed, untouched;
      }
      var parsed := Parse(e.checks, files[key], key);
      if parsed.None? {
        return false, changed, untouched;
      }
      var done, more := RekeyRecord(e, key, parsed.value);
      if !done {
        return false, changed, untouched;
      }
      if more {
        return true, changed + 1, untouched;
      }
      return true, changed, untouched + 1;
    }

    method RekeyAll(e: Env, names: seq<string>) returns (report: Report)
      requires |e.secrets| >= 1
      modifies this
      ensures files == Sweep(e, old(files), names).files
      ensures report == if Sweep(e, old(files), names).ok
                        then Completed(Sweep(e, old(files), names).changed, Sweep(e, old(files), names).untouched)
                        else Stopped
    {
      var changed: nat := 0;
      var untouched: nat := 0;
      var i := 0;
      while i < |names|
        invariant 0 <= i <= |names|
        invariant Sweep(e, old(files), names[..i]) == Progress(files, changed, untouched, true)
      {
        SweepOneMore(e, old(files), names, i);
        var ok;
        ok, changed, untouched := RekeyNext(e, names[i], changed, untouched);
        i := i + 1;
        if !ok {
          StoppedStays(e, old(files), names, i);
          return Stopped;
        }
      }
      assert names[..|names|] == names;
      return Completed(changed, untouched);
    }
  }

  lemma SweepOneMore(e: Env, files: Files, names: seq<string>, i: nat)
    requires |e.secrets| >= 1 && i < |names|
    ensures Sweep(e, files, names[..i + 1]) == Advance(e, Sweep(e, files, names[..i]), names[i])
  {
    assert names[..i + 1][..i] == names[..i];
  }

  lemma {:induction false} StoppedStays(e: Env, files: Files, names: seq<string>, i: nat)
    requires |e.secrets| >= 1 && i <= |names| && !Sweep(e, files, names[..i]).ok
    ensures Sweep(e, files, names) == Sweep(e, files, names[..i])
    decreases |names|
  {
    if i == |names| {
      assert names[..i] == names;
    } else {
      var most := names[..|names| - 1];
      assert most[..i] == names[..i];
      StoppedStays(e, files, most, i);
    }
  }

  // ---------------------------------------------------------------- nothing is lost at any point

  lemma EquivalentRefl(e: Env, r: Record)
    requires |e.secrets| >= 1
    ensures Equivalent(e, e.secrets, r, r)
  {
    forall i | 0 <= i < |r.links| ensures LinkKept(e, e.secrets, r, r.links[i], r.links[i]) {
    }
  }

  lemma EquivalentTrans(e: Env, secrets: seq<Secret>, a: Record, b: Record, c: Record)
    requires |e.secrets| >= 1 && |secrets| >= 1
    requires Equivalent(e, e.secrets, a, b) && Equivalent(e, secrets, b, c)
    ensures Equivalent(e, secrets, a, c)
  {
    forall i | 0 <= i < |a.links| ensures LinkKept(e, secrets, a, a.links[i], c.links[i]) {
      assert LinkKept(e, e.secrets, a, a.links[i], b.links[i]);
      assert LinkKept(e, secrets, b, b.links[i], c.links[i]);
      BindingIgnoresTheRest(e, secrets, a, b, c.links[i]);
      BindingIgnoresTheRest(e, e.secrets, a, b, b.links[i]);
    }
  }

  /** A replaced file reads back as the rekeyed record, unless a secret of the record has outgrown its bound. */
  lemma ReplacedReadsBack(e: Env, doc: Document, key: string)
    requires Ideal(e) && RekeyFile(e, doc, key).Replaced?
    ensures Parse(e.checks, doc, key).Some?
    ensures var r := Parse(e.checks, doc, key).value;
            var after := Parse(e.checks, RekeyFile(e, doc, key).doc, key);
            if SecretsFit(r.totp) then after.Some? && Equivalent(e, e.secrets, r, after.value) && AllCurrent(e, after.value)
            else after.None?
  {
    var r := Parse(e.checks, doc, key).value;
    ParsedIsWellFormed(e.checks, doc, key);
    var links := RekeyedLinks(e, r, r.links).value;
    RekeyedRecordKeeps(e, r, links, e.secrets);
    assert e.(secrets := e.secrets) == e;
    StoredFormParsesBack(e.checks, RekeyedRecord(r, links));
  }

  /** If nothing was stale and everything opened, everything is current already. */
  lemma UnchangedIsCurrent(e: Env, doc: Document, key: string)
    requires |e.secrets| >= 1 && RekeyFile(e, doc, key).Unchanged?
    ensures Parse(e.checks, doc, key).Some? && AllCurrent(e, Parse(e.checks, doc, key).value)
  {
    var r := Parse(e.checks, doc, key).value;
    var links := RekeyedLinks(e, r, r.links).value;
    forall i | 0 <= i < |r.links| && Retains(r.links[i])
      ensures OpenToken(e, r, r.links[i]).Some? && OpenToken(e, r, r.links[i]).value.current
    {
      assert RekeyLink(e, r, r.links[i]) == Some(links[i]);
      assert !Stale(e, r, r.links[i]);
    }
  }

  /**
   * What the sweep cannot harm: a readable record whose canonical secrets are within the bound, or
   * that has nothing to re-seal and is therefore left alone.
   */
  predicate Sound(e: Env, files: Files, key: string)
    requires |e.secrets| >= 1
  {
    && key in files && Parse(e.checks, files[key], key).Some?
    && (SecretsFit(Parse(e.checks, files[key], key).value.totp) || !AnyStale(e, Parse(e.checks, files[key], key).value))
  }

  /** A record of the directory, before and after. */
  ghost predicate Kept(e: Env, before: Files, after: Files, key: string)
    requires |e.secrets| >= 1
  {
    && key in before && key in after
    && Parse(e.checks, before[key], key).Some? && Parse(e.checks, after[key], key).Some?
    && Equivalent(e, e.secrets, Parse(e.checks, before[key], key).value, Parse(e.checks, after[key], key).value)
  }

  /** Replaced by a document that can no longer be read. */
  ghost predicate Lost(e: Env, after: Files, key: string) {
    key in after && Parse(e.checks, after[key], key).None?
  }

  lemma KeptTrans(e: Env, a: Files, b: Files, c: Files, key: string)
    requires |e.secrets| >= 1 && Kept(e, a, b, key) && Kept(e, b, c, key)
    ensures Kept(e, a, c, key)
  {
    EquivalentTrans(e, e.secrets, Parse(e.checks, a[key], key).value, Parse(e.checks, b[key], key).value,
                    Parse(e.checks, c[key], key).value);
  }

  /** One file: its record is kept, or it is unsound, the one being processed, and lost. */
  lemma AdvanceKeeps(e: Env, p: Progress, name: string, key: string)
    requires Ideal(e) && key in p.files && Parse(e.checks, p.files[key], key).Some?
    ensures Sound(e, p.files, key) ==> Kept(e, p.files, Advance(e, p, name).files, key)
    ensures !Sound(e, p.files, key) ==> Advance(e, p, name).files[key] == p.files[key] || Lost(e, Advance(e, p, name).files, key)
  {
    if key == name && p.ok && RekeyFile(e, p.files[key], key).Replaced? {
      AdvanceReplaces(e, p, key);
      ReplacedIsKeptOrLost(e, p.files, key);
    } else {
      OthersAreUntouched(e, p, name, key);
      KeptSame(e, p.files, Advance(e, p, name).files, key);
    }
  }

  lemma AdvanceReplaces(e: Env, p: Progress, key: string)
    requires |e.secrets| >= 1 && p.ok && key in p.files && RekeyFile(e, p.files[key], key).Replaced?
    ensures Advance(e, p, key).files == p.files[key := RekeyFile(e, p.files[key], key).doc]
  {
  }

  lemma OthersAreUntouched(e: Env, p: Progress, name: string, key: string)
    requires |e.secrets| >= 1 && key in p.files
    requires !(key == name && p.ok && RekeyFile(e, p.files[key], key).Replaced?)
    ensures key in Advance(e, p, name).files && Advance(e, p, name).files[key] == p.files[key]
  {
  }

  lemma KeptSame(e: Env, before: Files, after: Files, key: string)
    requires |e.secrets| >= 1 && key in before && key in after && after[key] == before[key]
    requires Parse(e.checks, before[key], key).Some?
    ensures Kept(e, before, after, key)
  {
    EquivalentRefl(e, Parse(e.checks, before[key], key).value);
  }

  lemma ReplacedIsKeptOrLost(e: Env, files: Files, key: string)
    requires Ideal(e) && key in files && RekeyFile(e, files[key], key).Replaced?
    ensures var after := files[key := RekeyFile(e, files[key], key).doc];
            if Sound(e, files, key) then Kept(e, files, after, key) else Lost(e, after, key)
  {
    ReplacedReadsBack(e, files[key], key);
  }

  lemma AdvanceKeepsSound(e: Env, p: Progress, name: string, key: string)
    requires Ideal(e) && Sound(e, p.files, key)
    ensures Sound(e, Advance(e, p, name).files, key)
  {
    if key == name && p.ok && RekeyFile(e, p.files[key], key).Replaced? {
      AdvanceReplaces(e, p, key);
      ReplacedStaysSound(e, p.files, key);
    } else {
      OthersAreUntouched(e, p, name, key);
      SoundBySameFile(e, p.files, Advance(e, p, name).files, key);
    }
  }

  lemma ReplacedStaysSound(e: Env, files: Files, key: string)
    requires Ideal(e) && Sound(e, files, key) && RekeyFile(e, files[key], key).Replaced?
    ensures Sound(e, files[key := RekeyFile(e, files[key], key).doc], key)
  {
    ReplacedReadsBack(e, files[key], key);
  }

  /**
   * Wherever the sweep has got to, and however it was stopped: a sound record is readable, only its
   * ciphertexts and its revision differ, and each retained credential opens to the same token under
   * the configured secrets.  An unsound one is untouched, or it is lost.
   */
  lemma {:induction false} NothingIsLost(e: Env, files: Files, names: seq<string>, key: string)
    requires Ideal(e) && key in files && Parse(e.checks, files[key], key).Some?
    ensures Survives(e, files, Sweep(e, files, names).files, key)
  {
    if names == [] {
      KeptSame(e, files, files, key);
    } else {
      NothingIsLost(e, files, names[..|names| - 1], key);
      SurvivesAdvance(e, files, Sweep(e, files, names[..|names| - 1]), names[|names| - 1], key);
    }
  }

  /** What any sweep makes of a record that was readable. */
  ghost predicate Survives(e: Env, before: Files, after: Files, key: string)
    requires |e.secrets| >= 1 && key in before
  {
    && key in after
    && if Sound(e, before, key) then Sound(e, after, key) && Kept(e, before, after, key)
       else after[key] == before[key] || Lost(e, after, key)
  }

  lemma SoundAdvance(e: Env, before: Files, p: Progress, name: string, key: string)
    requires Ideal(e) && Kept(e, before, p.files, key) && Sound(e, p.files, key)
    ensures Sound(e, Advance(e, p, name).files, key) && Kept(e, before, Advance(e, p, name).files, key)
  {
    AdvanceKeeps(e, p, name, key);
    AdvanceKeepsSound(e, p, name, key);
    KeptTrans(e, before, p.files, Advance(e, p, name).files, key);
  }

  lemma UnsoundAdvance(e: Env, before: Files, p: Progress, name: string, key: string)
    requires Ideal(e) && key in before && key in p.files && p.files[key] == before[key]
    requires Parse(e.checks, before[key], key).Some? && !Sound(e, before, key)
    ensures key in Advance(e, p, name).files
    ensures Advance(e, p, name).files[key] == before[key] || Lost(e, Advance(e, p, name).files, key)
  {
    SoundBySameFile(e, before, p.files, key);
    AdvanceKeeps(e, p, name, key);
  }

  lemma SurvivesAdvance(e: Env, before: Files, p: Progress, name: string, key: string)
    requires Ideal(e) && key in before && Parse(e.checks, before[key], key).Some? && Survives(e, before, p.files, key)
    ensures Survives(e, before, Advance(e, p, name).files, key)
  {
    if Sound(e, before, key) {
      SoundAdvance(e, before, p, name, key);
    } else if Lost(e, p.files, key) {
      UnreadableStays(e, p, name, key);
    } else {
      UnsoundAdvance(e, before, p, name, key);
    }
  }

  /** What cannot be read cannot be replaced either. */
  lemma UnreadableStays(e: Env, p: Progress, name: string, key: string)
    requires |e.secrets| >= 1 && Lost(e, p.files, key)
    ensures Advance(e, p, name).files[key] == p.files[key] && (key == name ==> !Advance(e, p, name).ok)
  {
  }

  // ---------------------------------------------------------------- completion

  ghost predicate CurrentFile(e: Env, files: Files, key: string)
    requires |e.secrets| >= 1
  {
    key in files && Parse(e.checks, files[key], key).Some? && AllCurrent(e, Parse(e.checks, files[key], key).value)
  }

  /** A current file is left alone, under any list of secrets that starts with the same one. */
  lemma CurrentIsUnchanged(e: Env, secrets: seq<Secret>, doc: Document, key: string)
    requires Ideal(e) && |secrets| >= 1 && secrets[0] == e.secrets[0]
    requires Parse(e.checks, doc, key).Some? && AllCurrent(e, Parse(e.checks, doc, key).value)
    ensures RekeyFile(e.(secrets := secrets), doc, key).Unchanged?
  {
    var r := Parse(e.checks, doc, key).value;
    var f := e.(secrets := secrets);
    forall i | 0 <= i < |r.links| ensures RekeyLink(f, r, r.links[i]).Some? && !Stale(f, r, r.links[i]) {
      if Retains(r.links[i]) {
        DirectOpens(e, r, r.links[i], secrets);
      }
    }
  }

  /** A file just processed is current, or lost if it was unsound. */
  lemma ProcessedIsCurrentOrLost(e: Env, p: Progress, key: string)
    requires Ideal(e) && p.ok && Advance(e, p, key).ok
    ensures if Sound(e, p.files, key) then CurrentFile(e, Advance(e, p, key).files, key) else Lost(e, Advance(e, p, key).files, key)
  {
    if RekeyFile(e, p.files[key], key).Replaced? {
      ReplacedReadsBack(e, p.files[key], key);
    } else {
      UnchangedIsCurrent(e, p.files[key], key);
      UnchangedIsSound(e, p.files, key);
    }
  }

  lemma UnchangedIsSound(e: Env, files: Files, key: string)
    requires |e.secrets| >= 1 && key in files && RekeyFile(e, files[key], key).Unchanged?
    ensures Sound(e, files, key)
  {
  }

  lemma CurrentStays(e: Env, p: Progress, name: string, key: string)
    requires Ideal(e) && CurrentFile(e, p.files, key)
    ensures CurrentFile(e, Advance(e, p, name).files, key)
  {
    if key == name {
      CurrentIsUnchanged(e, e.secrets, p.files[key], key);
      assert e.(secrets := e.secrets) == e;
    }
  }

  lemma {:induction false} UnlistedIsUntouched(e: Env, files: Files, names: seq<string>, key: string)
    requires |e.secrets| >= 1 && key !in names
    ensures key in Sweep(e, files, names).files <==> key in files
    ensures key in files ==> Sweep(e, files, names).files[key] == files[key]
  {
    if names != [] {
      UnlistedIsUntouched(e, files, names[..|names| - 1], key);
    }
  }

  /** What a completed sweep makes of a listed record. */
  ghost predicate Done(e: Env, before: Files, after: Files, key: string)
    requires |e.secrets| >= 1
  {
    Passed(e, after, key, Sound(e, before, key))
  }

  ghost predicate Passed(e: Env, after: Files, key: string, sound: bool)
    requires |e.secrets| >= 1
  {
    if sound then CurrentFile(e, after, key) else Lost(e, after, key)
  }

  lemma OkBefore(e: Env, p: Progress, name: string)
    requires |e.secrets| >= 1 && Advance(e, p, name).ok
    ensures p.ok
  {
  }

  lemma FirstTimeListed(e: Env, files: Files, most: seq<string>, key: string)
    requires Ideal(e) && key !in most && Sweep(e, files, most).ok && Advance(e, Sweep(e, files, most), key).ok
    ensures Done(e, files, Advance(e, Sweep(e, files, most), key).files, key)
  {
    UnlistedIsUntouched(e, files, most, key);
    SoundBySameFile(e, files, Sweep(e, files, most).files, key);
    ProcessedIsCurrentOrLost(e, Sweep(e, files, most), key);
  }

  lemma DoneStays(e: Env, files: Files, p: Progress, name: string, key: string)
    requires Ideal(e) && Done(e, files, p.files, key)
    ensures Done(e, files, Advance(e, p, name).files, key)
  {
    PassedStays(e, p, name, key, Sound(e, files, key));
  }

  /** One more file, seen from the sweep before it. */
  lemma DoneByOneMore(e: Env, files: Files, most: seq<string>, name: string, key: string)
    requires Ideal(e) && Sweep(e, files, most).ok && Advance(e, Sweep(e, files, most), name).ok
    requires key in most ==> Done(e, files, Sweep(e, files, most).files, key)
    requires key in most || key == name
    ensures Done(e, files, Advance(e, Sweep(e, files, most), name).files, key)
  {
    if key in most {
      DoneStays(e, files, Sweep(e, files, most), name, key);
    } else {
      FirstTimeListed(e, files, most, key);
    }
  }

  lemma InMostOrLast(names: seq<string>, key: string)
    requires key in names
    ensures names != [] && (key in names[..|names| - 1] || key == names[|names| - 1])
  {
    assert names == names[..|names| - 1] + [names[|names| - 1]];
  }

  lemma SweepUnfolds(e: Env, files: Files, names: seq<string>)
    requires |e.secrets| >= 1 && names != []
    ensures Sweep(e, files, names) == Advance(e, Sweep(e, files, names[..|names| - 1]), names[|names| - 1])
    ensures Sweep(e, files, names).ok ==> Sweep(e, files, names[..|names| - 1]).ok
  {
    if Sweep(e, files, names).ok {
      OkBefore(e, Sweep(e, files, names[..|names| - 1]), names[|names| - 1]);
    }
  }

  lemma {:induction false} CompletedIsCurrent(e: Env, files: Files, names: seq<string>, key: string)
    requires Ideal(e) && Sweep(e, files, names).ok && key in names
    ensures Done(e, files, Sweep(e, files, names).files, key)
  {
    InMostOrLast(names, key);
    SweepUnfolds(e, files, names);
    var most := names[..|names| - 1];
    if key in most {
      CompletedIsCurrent(e, files, most, key);
    }
    DoneByOneMore(e, files, most, names[|names| - 1], key);
  }

  lemma PassedStays(e: Env, p: Progress, name: string, key: string, sound: bool)
    requires Ideal(e) && Passed(e, p.files, key, sound)
    ensures Passed(e, Advance(e, p, name).files, key, sound)
  {
    if sound {
      CurrentStays(e, p, name, key);
    } else {
      UnreadableStays(e, p, name, key);
    }
  }

  lemma SoundBySameFile(e: Env, a: Files, b: Files, key: string)
    requires |e.secrets| >= 1 && (key in a <==> key in b) && (key in a ==> a[key] == b[key])
    ensures Sound(e, a, key) <==> Sound(e, b, key)
  {
  }

  lemma CurrentMeansSame(e: Env, r: Record, l: Link)
    requires Ideal(e) && (Retains(l) ==> OpenToken(e, r, l).Some? && OpenToken(e, r, l).value.current)
    ensures TokenUnder(e, [e.secrets[0]], r, l) == TokenUnder(e, e.secrets, r, l)
  {
    if Retains(l) {
      DirectOpens(e, r, l, [e.secrets[0]]);
      assert e.(secrets := e.secrets) == e;
    }
  }

  lemma CurrentNeedsOnlyTheCurrentSecret(e: Env, a: Record, b: Record)
    requires Ideal(e) && Equivalent(e, e.secrets, a, b) && AllCurrent(e, b)
    ensures Equivalent(e, [e.secrets[0]], a, b)
  {
    forall i | 0 <= i < |a.links| ensures LinkKept(e, [e.secrets[0]], a, a.links[i], b.links[i]) {
      assert LinkKept(e, e.secrets, a, a.links[i], b.links[i]);
      CurrentMeansSame(e, b, b.links[i]);
      BindingIgnoresTheRest(e, e.secrets, a, b, b.links[i]);
      BindingIgnoresTheRest(e, [e.secrets[0]], a, b, b.links[i]);
    }
  }

  /**
   * Once the sweep completed, every credential of a sound record opens to its original token under
   * the current secret alone; and every listed record that was not sound is lost.
   */
  lemma CompletedNeedsOnlyTheCurrentSecret(e: Env, files: Files, names: seq<string>, key: string)
    requires Ideal(e) && Sweep(e, files, names).ok && key in names
    ensures var after := Sweep(e, files, names).files;
            if Sound(e, files, key)
            then key in after && Parse(e.checks, after[key], key).Some?
                 && Equivalent(e, [e.secrets[0]], Parse(e.checks, files[key], key).value, Parse(e.checks, after[key], key).value)
            else Lost(e, after, key)
  {
    CompletedIsCurrent(e, files, names, key);
    if Sound(e, files, key) {
      NothingIsLost(e, files, names, key);
      var after := Sweep(e, files, names).files;
      CurrentNeedsOnlyTheCurrentSecret(e, Parse(e.checks, files[key], key).value, Parse(e.checks, after[key], key).value);
    }
  }

  /** A file the sweep can handle: readable, every credential opening, writable if one is stale. */
  predicate Manageable(e: Env, files: Files, key: string)
    requires |e.secrets| >= 1
  {
    key in files && !RekeyFile(e, files[key], key).Failed?
  }

  lemma AdvanceOkIff(e: Env, p: Progress, name: string)
    requires |e.secrets| >= 1
    ensures var q := Advance(e, p, name);
            && (q.ok <==> p.ok && Manageable(e, p.files, name))
            && (q.ok ==> q.changed + q.untouched == p.changed + p.untouched + 1)
  {
  }

  lemma ManageableBySameFile(e: Env, a: Files, b: Files, key: string)
    requires |e.secrets| >= 1 && (key in a <==> key in b) && (key in a ==> a[key] == b[key])
    ensures Manageable(e, a, key) <==> Manageable(e, b, key)
  {
  }

  ghost predicate AllManageable(e: Env, files: Files, names: seq<string>)
    requires |e.secrets| >= 1
  {
    forall i :: 0 <= i < |names| ==> Manageable(e, files, names[i])
  }

  lemma AllOfSnoc(e: Env, files: Files, names: seq<string>)
    requires |e.secrets| >= 1 && names != []
    ensures AllManageable(e, files, names) <==>
              AllManageable(e, files, names[..|names| - 1]) && Manageable(e, files, names[|names| - 1])
  {
    var most := names[..|names| - 1];
    assert forall i :: 0 <= i < |most| ==> most[i] == names[i];
    if AllManageable(e, files, most) && Manageable(e, files, names[|names| - 1]) {
      forall i | 0 <= i < |names| ensures Manageable(e, files, names[i]) {
        if i < |most| { assert Manageable(e, files, most[i]); }
      }
    }
  }

  /** The sweep completes exactly when every listed file can be handled, and then counts each of them once. */
  lemma {:induction false} SweepCompletesIff(e: Env, files: Files, names: seq<string>)
    requires |e.secrets| >= 1 && DistinctStrings(names)
    ensures Sweep(e, files, names).ok <==> AllManageable(e, files, names)
    ensures Sweep(e, files, names).ok ==> Sweep(e, files, names).changed + Sweep(e, files, names).untouched == |names|
    ensures forall key :: key !in names ==> (key in Sweep(e, files, names).files <==> key in files)
    ensures forall key :: key !in names && key in files ==> Sweep(e, files, names).files[key] == files[key]
  {
    forall key | key !in names
      ensures key in Sweep(e, files, names).files <==> key in files
      ensures key in files ==> Sweep(e, files, names).files[key] == files[key]
    {
      UnlistedIsUntouched(e, files, names, key);
    }
    if names != [] {
      var most, name := names[..|names| - 1], names[|names| - 1];
      SweepCompletesIff(e, files, most);
      assert name !in most;
      UnlistedIsUntouched(e, files, most, name);
      ManageableBySameFile(e, files, Sweep(e, files, most).files, name);
      AdvanceOkIff(e, Sweep(e, files, most), name);
      AllOfSnoc(e, files, names);
      SweepUnfolds(e, files, names);
    }
  }

  lemma {:induction false} CurrentSweepIsIdle(e: Env, secrets: seq<Secret>, files: Files, names: seq<string>)
    requires Ideal(e) && |secrets| >= 1 && secrets[0] == e.secrets[0]
    requires forall i :: 0 <= i < |names| ==> CurrentFile(e, files, names[i])
    ensures Sweep(e.(secrets := secrets), files, names) == Progress(files, 0, |names|, true)
  {
    if names != [] {
      var most := names[..|names| - 1];
      CurrentSweepIsIdle(e, secrets, files, most);
      var key := names[|names| - 1];
      assert CurrentFile(e, files, key);
      CurrentIsUnchanged(e, secrets, files[key], key);
    }
  }

  /** A sweep does not get past a file that cannot be read. */
  lemma {:induction false} LostStopsTheSweep(e: Env, files: Files, names: seq<string>, key: string)
    requires |e.secrets| >= 1 && Lost(e, files, key)
    ensures Lost(e, Sweep(e, files, names).files, key)
    ensures key in names ==> !Sweep(e, files, names).ok
  {
    if names != [] {
      var most, name := names[..|names| - 1], names[|names| - 1];
      assert names == most + [name];
      LostStopsTheSweep(e, files, most, key);
      UnreadableStays(e, Sweep(e, files, most), name, key);
    }
  }

  /**
   * A second sweep completes, also after the previous secret has been dropped, if and only if every
   * listed record was sound; then it changes nothing and reports zero changed.
   */
  lemma SecondSweepReportsZero(e: Env, files: Files, names: seq<string>, secrets: seq<Secret>)
    requires Ideal(e) && Sweep(e, files, names).ok && |secrets| >= 1 && secrets[0] == e.secrets[0]
    ensures var after := Sweep(e, files, names).files; var second := Sweep(e.(secrets := secrets), after, names);
            && (second.ok <==> forall i :: 0 <= i < |names| ==> Sound(e, files, names[i]))
            && (second.ok ==> second == Progress(after, 0, |names|, true))
  {
    var after := Sweep(e, files, names).files;
    forall i | 0 <= i < |names|
      ensures Done(e, files, after, names[i])
    {
      CompletedIsCurrent(e, files, names, names[i]);
    }
    if forall i :: 0 <= i < |names| ==> Sound(e, files, names[i]) {
      CurrentSweepIsIdle(e, secrets, after, names);
    } else {
      var i :| 0 <= i < |names| && !Sound(e, files, names[i]);
      LostStopsTheSweep(e.(secrets := secrets), after, names, names[i]);
    }
  }
}
