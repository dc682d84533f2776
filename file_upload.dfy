/**
  The APK picker of components/file-upload.tsx: the drag highlight, the `.apk` check on
  a dropped or picked file, the chosen file, and the `onFileSelect` notifications it
  sends to its parent.
*/
module FileUpload {
  import opened Wrappers
  import Text
  import Web

  /** `file && file.name.endsWith(".apk")`: a file is there and its name ends in `.apk`, case-sensitively. */
  predicate AcceptsApk(file: Option<Web.File>) {
    file.Some? && Text.EndsWith(file.value.name, ".apk")
  }

  /** Any name ending in `.apk` is accepted, whatever comes before it. */
  lemma ApkNamesAccepted(stem: string, size: nat)
    ensures AcceptsApk(Some(Web.File(stem + ".apk", size)))
  {
    var name := stem + ".apk";
    assert name[|name| - 4..] == ".apk";
  }

  /** The check is case-sensitive: `.APK` is refused, and so is no file at all. */
  lemma UpperCaseApkRefused(stem: string, size: nat)
    ensures !AcceptsApk(Some(Web.File(stem + ".APK", size)))
    ensures !AcceptsApk(None)
  {
    var name := stem + ".APK";
    assert name[|name| - 3] == 'A';
  }

  class FileUploader {
    /** The accepted file, shown with its remove and scan buttons. */
    var file: Option<Web.File>
    var isDragging: bool
    /** The files passed to `onFileSelect`, in order. */
    var selected: seq<Web.File>

    constructor ()
      ensures file == None && !isDragging && selected == []
    {
      file := None;
      isDragging := false;
      selected := [];
    }

    /** `handleDragOver`. */
    method DragOver()
      modifies this
      ensures isDragging
      ensures file == old(file) && selected == old(selected)
    {
      isDragging := true;
    }

    /** `handleDragLeave`. */
    method DragLeave()
      modifies this
      ensures !isDragging
      ensures file == old(file) && selected == old(selected)
    {
      isDragging := false;
    }

    /**
      `handleDrop`: the highlight ends; the first dropped file is taken and reported once
      when it is an `.apk`, and otherwise nothing else changes.
    */
    method Drop(dropped: Option<Web.File>)
      modifies this
      ensures !isDragging
      ensures AcceptsApk(dropped) ==> file == dropped && selected == old(selected) + [dropped.value]
      ensures !AcceptsApk(dropped) ==> file == old(file) && selected == old(selected)
    {
      isDragging := false;
      if dropped.Some? && Text.EndsWith(dropped.value.name, ".apk") {
        file := dropped;
        selected := selected + [dropped.value];
      }
    }

    /** `handleFileInput`: the same `.apk` rule for a file picked in the dialog; the highlight is untouched. */
    method FileInput(picked: Option<Web.File>)
      modifies this
      ensures AcceptsApk(picked) ==> file == picked && selected == old(selected) + [picked.value]
      ensures !AcceptsApk(picked) ==> file == old(file) && selected == old(selected)
      ensures isDragging == old(isDragging)
    {
      if picked.Some? && Text.EndsWith(picked.value.name, ".apk") {
        file := picked;
        selected := selected + [picked.value];
      }
    }

    /** `handleRemove`: forget the file without telling the parent. */
    method Remove()
      modifies this
      ensures file == None
      ensures isDragging == old(isDragging) && selected == old(selected)
    {
      file := None;
    }

    /** The drop zone is shown while no file is chosen; the scan button only beside a file. */
    predicate DropZoneShown()
      reads this
    {
      file.None?
    }
  }

  /** One thing a visitor does to the picker. */
  datatype Gesture =
    | DragOverZone
    | DragLeaveZone
    | DropFile(dropped: Option<Web.File>)
    | PickFile(picked: Option<Web.File>)
    | RemoveFile

  /**
    Whatever the visitor does, in any order, every file the parent hears about is an
    `.apk`, and the chosen file, when there is one, is the last file reported.
  */
  method OnlyApksReported(gestures: seq<Gesture>) returns (reported: seq<Web.File>, chosen: Option<Web.File>)
    ensures forall i :: 0 <= i < |reported| ==> Text.EndsWith(reported[i].name, ".apk")
    ensures |reported| <= |gestures|
    ensures chosen.Some? ==> reported != [] && chosen.value == reported[|reported| - 1]
  {
    var uploader := new FileUploader();
    var k := 0;
    while k < |gestures|
      invariant 0 <= k <= |gestures|
      invariant |uploader.selected| <= k
      invariant forall i :: 0 <= i < |uploader.selected| ==> Text.EndsWith(uploader.selected[i].name, ".apk")
      invariant uploader.file.Some? ==> uploader.selected != [] && uploader.file.value == uploader.selected[|uploader.selected| - 1]
    {
      match gestures[k] {
        case DragOverZone => uploader.DragOver();
        case DragLeaveZone => uploader.DragLeave();
        case DropFile(dropped) => uploader.Drop(dropped);
        case PickFile(picked) => uploader.FileInput(picked);
        case RemoveFile => uploader.Remove();
      }
      k := k + 1;
    }
    reported, chosen := uploader.selected, uploader.file;
  }
}
