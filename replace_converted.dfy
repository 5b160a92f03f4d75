/**
 * replace_converted.py: in one directory, every file whose lower-cased name
 * ends with "_converted.mp4" overwrites the file named by replacing
 * "_converted.mp4" with ".mp4" (case-sensitively), and is then deleted.
 */
module ReplaceConverted {
  import opened Wrappers
  import opened Text
  import opened FileSystem

  const ConvertedSuffix: string := "_converted.mp4"
  const OriginalSuffix: string := ".mp4"

  /** The selection test: f.lower().endswith('_converted.mp4') */
  predicate IsConvertedName(name: string)
  {
    EndsWith(Lower(name), ConvertedSuffix)
  }

  /** converted_file.replace('_converted.mp4', '.mp4') */
  function OriginalName(converted: string): string
  {
    ReplaceAll(converted, ConvertedSuffix, OriginalSuffix)
  }

  /** The converted files of a listing, in listing order. */
  function SelectConverted(names: seq<string>): seq<string>
    decreases |names|
  {
    if |names| == 0 then []
    else
      var last := names[|names| - 1];
      SelectConverted(names[..|names| - 1]) + (if IsConvertedName(last) then [last] else [])
  }

  /** How the loop body ends for one converted file. */
  datatype Outcome =
    | Replaced         // copied over the original and deleted; success_count increases
    | OriginalMissing  // `continue` at the missing-original check
    | Failed           // copy2 or remove raised; the except branch logs it

  /** The directory entries after one pass of the loop body, and how it ended. */
  datatype Step = Step(entries: map<string, Entry>, outcome: Outcome)

  /** The directory entries after the loop, and success_count. */
  datatype Replacement = Replacement(entries: map<string, Entry>, count: nat)

  /** One pass of the loop body on the directory entries m. */
  function ReplaceOne(m: map<string, Entry>, converted: string): Step
  {
    var original := OriginalName(converted);
    if original !in m then Step(m, OriginalMissing)
    else match Copy2Within(m, converted, original)
      case None => Step(m, Failed)
      case Some(copied) =>
        match RemoveFile(copied, converted)
        case None => Step(copied, Failed)
        case Some(removed) => Step(removed, Replaced)
  }

  /** The loop over converted_files. */
  function ReplaceEach(m: map<string, Entry>, converted: seq<string>): Replacement
    decreases |converted|
  {
    if |converted| == 0 then Replacement(m, 0)
    else
      var before := ReplaceEach(m, converted[..|converted| - 1]);
      var step := ReplaceOne(before.entries, converted[|converted| - 1]);
      Replacement(step.entries, if step.outcome == Replaced then before.count + 1 else before.count)
  }

  // ---------------------------------------------------------------------
  // Properties of the name handling
  // ---------------------------------------------------------------------

  /** A name is selected exactly when it is listed and passes the suffix test. */
  lemma {:induction false} SelectConvertedMembers(names: seq<string>, n: string)
    ensures n in SelectConverted(names) <==> n in names && IsConvertedName(n)
    decreases |names|
  {
    if |names| > 0 {
      var k := |names| - 1;
      SelectConvertedMembers(names[..k], n);
      assert names == names[..k] + [names[k]];
    }
  }

  /** Selection keeps a listing free of repeats. */
  lemma {:induction false} SelectConvertedDistinct(names: seq<string>)
    requires forall i, j :: 0 <= i < j < |names| ==> names[i] != names[j]
    ensures forall i, j :: 0 <= i < j < |SelectConverted(names)| ==>
      SelectConverted(names)[i] != SelectConverted(names)[j]
    decreases |names|
  {
    if |names| > 0 {
      var k := |names| - 1;
      var init := names[..k];
      SelectConvertedDistinct(init);
      if IsConvertedName(names[k]) {
        SelectConvertedMembers(init, names[k]);
        assert names[k] !in init;
      }
    }
  }

  /** The suffix is already in lower case. */
  lemma ConvertedSuffixLower()
    ensures Lower(ConvertedSuffix) == ConvertedSuffix
  {
  }

  /** Any name ending with "_converted.mp4" is selected. */
  lemma SuffixSelected(stem: string)
    ensures IsConvertedName(stem + ConvertedSuffix)
  {
    LowerConcat(stem, ConvertedSuffix);
    ConvertedSuffixLower();
  }

  /**
   * A name that ends with "_converted.mp4" case-sensitively is selected and
   * maps to a different name that ends with ".mp4".
   */
  lemma LowerCaseSuffixMapped(stem: string)
    ensures IsConvertedName(stem + ConvertedSuffix)
    ensures EndsWith(OriginalName(stem + ConvertedSuffix), OriginalSuffix)
    ensures OriginalName(stem + ConvertedSuffix) != stem + ConvertedSuffix
  {
    SuffixSelected(stem);
    ReplaceAllTrailing(stem, ConvertedSuffix, OriginalSuffix);
  }

  /**
   * The upper-case quirk: a selected name that does not contain
   * "_converted.mp4" case-sensitively (say "CLIP_CONVERTED.MP4") maps to
   * itself, so the original exists, copy2 onto itself raises and nothing
   * changes. UpperCaseUnmapped gives a whole family of such names.
   */
  lemma UnmappedNameFails(m: map<string, Entry>, converted: string)
    requires !Contains(converted, ConvertedSuffix)
    requires converted in m
    ensures OriginalName(converted) == converted
    ensures ReplaceOne(m, converted) == Step(m, Failed)
  {
    ReplaceAllAbsent(converted, ConvertedSuffix, OriginalSuffix);
  }

  lemma UpperCaseUnmapped(stem: string)
    requires forall i :: 0 <= i < |stem| ==> stem[i] != 'c'
    ensures IsConvertedName(stem + "_CONVERTED.MP4")
    ensures OriginalName(stem + "_CONVERTED.MP4") == stem + "_CONVERTED.MP4"
  {
    var upper := "_CONVERTED.MP4";
    var name := stem + upper;
    assert IsConvertedName(name) by {
      LowerConcat(stem, upper);
      assert Lower(upper) == ConvertedSuffix;
    }
    assert forall i :: 0 <= i < |name| ==> name[i] != ConvertedSuffix[1] by {
      forall i | 0 <= i < |name| ensures name[i] != 'c' {
        if i >= |stem| {
          assert name[i] == upper[i - |stem|];
        }
      }
    }
    MissingCharNotContained(name, ConvertedSuffix, 1);
    ReplaceAllAbsent(name, ConvertedSuffix, OriginalSuffix);
  }

  // ---------------------------------------------------------------------
  // Properties of one step and of the loop
  // ---------------------------------------------------------------------

  /** A missing original is skipped: no change, not counted. */
  lemma OriginalMissingSkipped(m: map<string, Entry>, converted: string)
    requires OriginalName(converted) !in m
    ensures ReplaceOne(m, converted) == Step(m, OriginalMissing)
  {
  }

  /**
   * On success the original holds the converted file's content and the
   * converted name is gone; nothing else changes.
   */
  lemma ReplacedContent(m: map<string, Entry>, converted: string)
    requires converted in m && m[converted].File?
    requires OriginalName(converted) in m && m[OriginalName(converted)].File?
    requires OriginalName(converted) != converted
    ensures ReplaceOne(m, converted) == Step(m[OriginalName(converted) := m[converted]] - {converted}, Replaced)
  {
  }

  /** A step changes at most the converted name and its original, and creates no name. */
  lemma ReplaceOneFrame(m: map<string, Entry>, converted: string)
    ensures ReplaceOne(m, converted).entries.Keys <= m.Keys
    ensures forall k :: k in ReplaceOne(m, converted).entries && k != converted && k != OriginalName(converted) ==>
      ReplaceOne(m, converted).entries[k] == m[k]
    ensures forall k :: k in m && k != converted ==> k in ReplaceOne(m, converted).entries
  {
  }

  /** success_count never exceeds the number of converted files. */
  lemma {:induction false} ReplaceCountBounded(m: map<string, Entry>, converted: seq<string>)
    ensures ReplaceEach(m, converted).count <= |converted|
    decreases |converted|
  {
    if |converted| > 0 {
      ReplaceCountBounded(m, converted[..|converted| - 1]);
    }
  }

  /** The loop over a prefix one longer: one more pass of the body. */
  lemma ReplaceEachStep(m: map<string, Entry>, converted: seq<string>, i: int)
    requires 0 <= i < |converted|
    ensures ReplaceEach(m, converted[..i + 1]) ==
      Replacement(ReplaceOne(ReplaceEach(m, converted[..i]).entries, converted[i]).entries,
                  if ReplaceOne(ReplaceEach(m, converted[..i]).entries, converted[i]).outcome == Replaced
                  then ReplaceEach(m, converted[..i]).count + 1 else ReplaceEach(m, converted[..i]).count)
  {
    assert converted[..i + 1][..i] == converted[..i];
  }

  /**
   * Names that are neither a converted file nor the original of one keep
   * their entry; no name is created.
   */
  lemma {:induction false} ReplaceEachFrame(m: map<string, Entry>, converted: seq<string>, k: string)
    requires k !in converted
    requires forall i :: 0 <= i < |converted| ==> OriginalName(converted[i]) != k
    ensures ReplaceEach(m, converted).entries.Keys <= m.Keys
    ensures k in m <==> k in ReplaceEach(m, converted).entries
    ensures k in m ==> ReplaceEach(m, converted).entries[k] == m[k]
    decreases |converted|
  {
    if |converted| > 0 {
      var n := |converted| - 1;
      ReplaceEachFrame(m, converted[..n], k);
      ReplaceOneFrame(ReplaceEach(m, converted[..n]).entries, converted[n]);
    }
  }

  // ---------------------------------------------------------------------
  // The operation
  // ---------------------------------------------------------------------

  /**
   * replace_converted_files: returns the converted files in the order the
   * loop visits them (the listing's order) and the success count.
   */
  method ReplaceConvertedFiles(dir: Directory) returns (convertedFiles: seq<string>, successCount: nat)
    requires dir.Valid()
    modifies dir
    ensures dir.Valid() && dir.present == old(dir.present)
    ensures !old(dir.present) ==> convertedFiles == [] && successCount == 0
    ensures forall i, j :: 0 <= i < j < |convertedFiles| ==> convertedFiles[i] != convertedFiles[j]
    ensures forall n :: n in convertedFiles <==> n in old(dir.entries) && IsConvertedName(n)
    ensures Replacement(dir.entries, successCount) == ReplaceEach(old(dir.entries), convertedFiles)
  {
    convertedFiles, successCount := [], 0;
    if !dir.present {
      return;
    }
    var listing := dir.ListDir();
    convertedFiles := SelectConverted(listing);
    SelectConvertedDistinct(listing);
    assert forall i, j :: 0 <= i < j < |convertedFiles| ==> convertedFiles[i] != convertedFiles[j];
    forall n ensures n in convertedFiles <==> n in old(dir.entries) && IsConvertedName(n) {
      SelectConvertedMembers(listing, n);
    }
    if convertedFiles == [] {
      return;
    }

    var i := 0;
    while i < |convertedFiles|
      invariant 0 <= i <= |convertedFiles|
      invariant dir.Valid() && dir.present
      invariant Replacement(dir.entries, successCount) == ReplaceEach(old(dir.entries), convertedFiles[..i])
    {
      ReplaceEachStep(old(dir.entries), convertedFiles, i);
      ghost var before := dir.entries;
      var convertedFile := convertedFiles[i];
      var originalFile := OriginalName(convertedFile);
      ghost var outcome := OriginalMissing;
      if originalFile in dir.entries {
        var copied := dir.Copy2(convertedFile, originalFile);
        outcome := Failed;
        if copied {
          var removed := dir.Remove(convertedFile);
          if removed {
            successCount := successCount + 1;
            outcome := Replaced;
          }
        }
      }
      assert ReplaceOne(before, convertedFile) == Step(dir.entries, outcome);
      i := i + 1;
    }
    assert convertedFiles[..i] == convertedFiles;
  }
}
