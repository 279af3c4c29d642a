/** Legacy write and edit calls from end to end: translated into a patch, parsed, staged and
    committed to the files on disk. */
module LegacyToolCalls {
  import opened Options
  import opened Text
  import opened PatchSyntax
  import opened PatchRoundTrip
  import opened PatchEngine
  import opened PatchStaging
  import opened LegacyWrites
  import opened EditRequests
  import opened EditCorrectness
  import opened WriteRoundTrip

  /** What a patch text does to the disk. */
  function ApplyPatchText(resolve: Resolver, disk: Disk, patch: string): Result<PatchStaging.Done> {
    var actions :- Parse(patch);
    ApplyActions(resolve, PatchStaging.Done(disk, []), actions)
  }

  lemma {:induction false} OneAction(resolve: Resolver, d: PatchStaging.Done, action: Action)
    ensures ApplyActions(resolve, d, [action]) == ApplyAction(resolve, d, action)
  {
    assert [action][1..] == [];
  }

  lemma UpdateOne(resolve: Resolver, disk: Disk, path: string, place: Place, original: string, hunks: seq<Hunk>, text: string)
    requires resolve(path) == Some(place) && place in disk && disk[place] == TextFile(original)
    requires ApplyText(path, original, hunks) == Ok(text)
    ensures ApplyActions(resolve, PatchStaging.Done(disk, []), [UpdateFile(path, None, hunks)]) ==
            Ok(PatchStaging.Done(disk[place := TextFile(text)], [AppliedFile(path, None, Updated)]))
  {
    OneAction(resolve, PatchStaging.Done(disk, []), UpdateFile(path, None, hunks));
    assert [] + [AppliedFile(path, None, Updated)] == [AppliedFile(path, None, Updated)];
  }

  lemma AddOne(resolve: Resolver, disk: Disk, path: string, place: Place, content: string)
    requires resolve(path) == Some(place) && (place in disk ==> disk[place].TextFile?)
    ensures var replaced := if place in disk then Some(disk[place].content) else None;
            ApplyActions(resolve, PatchStaging.Done(disk, []), [AddFile(path, content)]) ==
            Ok(PatchStaging.Done(disk[place := TextFile(AddedContent(replaced, content))],
                                 [AppliedFile(path, None, if place in disk then Updated else Added)]))
  {
    OneAction(resolve, PatchStaging.Done(disk, []), AddFile(path, content));
    var file := AppliedFile(path, None, if place in disk then Updated else Added);
    assert [] + [file] == [file];
  }

  /** The one update an applied request parsed to. */
  lemma AppliedUpdate(path: string, edits: seq<Edit>, original: string)
    requires ApplyEdits(path, edits, original).Some?
    ensures EditPatch(path, edits, original).Done?
    ensures var parsed := Parse(EditPatch(path, edits, original).value);
            && parsed.Ok? && |parsed.value| == 1 && parsed.value[0].UpdateFile?
            && parsed.value == [UpdateFile(path, None, parsed.value[0].hunks)]
            && ApplyText(path, original, parsed.value[0].hunks) == Ok(ApplyEdits(path, edits, original).value)
  {
  }

  /** A faithful edit request whose hunks land and whose new lines keep their CRs leaves the file with every old text replaced at once by its new
      text, in its own line ends, and no other file changed. */
  lemma EditOnDisk(resolve: Resolver, disk: Disk, path: string, place: Place,
                   edits: seq<Edit>, original: string, content: string, ms: seq<Match>)
    requires GoodPath(path) && resolve(path) == Some(place) && place in disk && disk[place] == TextFile(original)
    requires Accepted(edits, original, content, ms) && Lands(content, ms)
    requires Faithful(content, ms) && NewTextKept(content, ms)
    ensures EditPatch(path, edits, original).Done?
    ensures ApplyPatchText(resolve, disk, EditPatch(path, edits, original).value) ==
            Ok(PatchStaging.Done(
                 disk[place := TextFile(InStyle(EnsureFinal(Requested(content, ms)), HasCrLf(original)))],
                 [AppliedFile(path, None, Updated)]))
  {
    EditsPreserveMeaning(path, edits, original, content, ms);
    AppliedUpdate(path, edits, original);
    var hunks := Parse(EditPatch(path, edits, original).value).value[0].hunks;
    UpdateOne(resolve, disk, path, place, original, hunks, ApplyEdits(path, edits, original).value);
  }

  /** A write leaves the file with the content written, in the line ends of the file it
      replaces, and no other file changed. */
  lemma {:induction false} WriteOnDisk(resolve: Resolver, disk: Disk, path: string, place: Place, content: string)
    requires GoodPath(path) && GoodContent(NormalizeEol(content))
    requires resolve(path) == Some(place) && (place in disk ==> disk[place].TextFile?)
    ensures var n := NormalizeEol(content);
            var replaced := if place in disk then Some(disk[place].content) else None;
            ApplyPatchText(resolve, disk, WritePatch(path, content)) ==
            Ok(PatchStaging.Done(disk[place := TextFile(AddedContent(replaced, n))],
                                 [AppliedFile(path, None, if place in disk then Updated else Added)]))
  {
    WriteRoundTrip.WriteRoundTrip(path, content);
    AddOne(resolve, disk, path, place, NormalizeEol(content));
  }
}
