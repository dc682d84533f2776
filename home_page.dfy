/**
  The landing page of app/page.tsx: the file chosen in the uploader, the OTP form's
  open flag, and the success panel shown once the form has been submitted.
*/
module HomePage {
  import opened Wrappers
  import Text
  import Web
  import OtpForm
  import FileUpload

  class Home {
    var selectedFile: Option<Web.File>
    var isModalOpen: bool
    var isUploaded: bool

    constructor ()
      ensures selectedFile == None && !isModalOpen && !isUploaded
    {
      selectedFile := None;
      isModalOpen := false;
      isUploaded := false;
    }

    /** `handleFileSelect`: remember the file the uploader reported. */
    method HandleFileSelect(file: Web.File)
      modifies this
      ensures selectedFile == Some(file)
      ensures isModalOpen == old(isModalOpen) && isUploaded == old(isUploaded)
    {
      selectedFile := Some(file);
    }

    /** `handleScan`: the form opens only when a file has been selected. */
    method HandleScan()
      modifies this
      ensures isModalOpen == (old(isModalOpen) || old(selectedFile).Some?)
      ensures selectedFile == old(selectedFile) && isUploaded == old(isUploaded)
    {
      if selectedFile.Some? {
        isModalOpen := true;
      }
    }

    /** `handleFormSubmit`: show the success panel and forget the file. */
    method HandleFormSubmit(data: OtpForm.FormData)
      modifies this
      ensures isUploaded && selectedFile == None
      ensures isModalOpen == old(isModalOpen)
    {
      isUploaded := true;
      selectedFile := None;
    }

    /** The form's `onClose`. */
    method CloseModal()
      modifies this
      ensures !isModalOpen
      ensures selectedFile == old(selectedFile) && isUploaded == old(isUploaded)
    {
      isModalOpen := false;
    }

    /** The success panel's "upload another" button. */
    method UploadAnother()
      modifies this
      ensures !isUploaded
      ensures selectedFile == old(selectedFile) && isModalOpen == old(isModalOpen)
    {
      isUploaded := false;
    }

    /** Dispatch one callback of the form to its handler. */
    method Notify(notice: OtpForm.Notice)
      modifies this
      ensures notice.Submitted? ==> isUploaded && selectedFile == None && isModalOpen == old(isModalOpen)
      ensures notice.Closed? ==> !isModalOpen && selectedFile == old(selectedFile) && isUploaded == old(isUploaded)
    {
      match notice
      case Submitted(data) => HandleFormSubmit(data);
      case Closed => CloseModal();
    }

    /** The uploader is mounted until the form is submitted; the success panel replaces it. */
    predicate UploadWidgetShown()
      reads this
    {
      !isUploaded
    }

    /** `selectedFile?.name || ""`: the file name handed to the form. */
    function ModalFileName(): (name: string)
      reads this
      ensures selectedFile.Some? ==> name == selectedFile.value.name
      ensures selectedFile.None? ==> name == ""
    {
      Text.OrElse(if selectedFile.Some? then Some(selectedFile.value.name) else None, "")
    }
  }

  /**
    The whole page flow: drop an `.apk`, press scan, get through the OTP form, and let
    its callbacks reach the page. The form is shown the dropped file's name; afterwards
    the success panel replaces the uploader, the form is shut and no file is selected,
    and the parent received exactly the form data on screen at submit time.
  */
  method UploadAndSubmit(apk: Web.File, email: string, typed: string, name: string)
    returns (shownName: string, submitted: seq<OtpForm.Notice>, uploadShown: bool, modalOpen: bool, selected: Option<Web.File>)
    requires FileUpload.AcceptsApk(Some(apk))
    requires email != ""
    requires |OtpForm.KeepDigits(typed)| >= 6
    ensures shownName == apk.name
    ensures submitted == [OtpForm.Submitted(OtpForm.FormData(email, OtpForm.KeepDigits(typed)[..6], name, "", "", "", "")), OtpForm.Closed]
    ensures !uploadShown && !modalOpen && selected == None
  {
    var home := new Home();
    var uploader := new FileUpload.FileUploader();
    uploader.Drop(Some(apk));
    home.HandleFileSelect(uploader.selected[0]);
    home.HandleScan();
    shownName := home.ModalFileName();

    var form := new OtpForm.OtpFormModal();
    form.EmailChange(email);
    form.SendOtp();
    form.SendTimerFires();
    form.OtpChange(typed);
    form.VerifyOtp();
    form.InputChange(OtpForm.FullName, name);
    form.Submit();
    form.SubmitTimerFires();
    submitted := form.notices;

    home.Notify(submitted[0]);
    home.Notify(submitted[1]);
    uploadShown, modalOpen, selected := home.UploadWidgetShown(), home.isModalOpen, home.selectedFile;
  }

  /**
    Whatever files are dropped, the page holds the uploader's accepted file, and scan
    opens the form exactly when one of them was an `.apk`.
  */
  method ScanOpensOnlyForApk(dropped: seq<Web.File>) returns (modalOpen: bool, selected: Option<Web.File>)
    ensures modalOpen <==> exists i :: 0 <= i < |dropped| && FileUpload.AcceptsApk(Some(dropped[i]))
    ensures selected.Some? ==> FileUpload.AcceptsApk(selected)
  {
    var home := new Home();
    var uploader := new FileUpload.FileUploader();
    var k := 0;
    while k < |dropped|
      invariant 0 <= k <= |dropped|
      invariant home.selectedFile == uploader.file && !home.isModalOpen
      invariant uploader.file.Some? ==> FileUpload.AcceptsApk(uploader.file)
      invariant uploader.file.Some? <==> exists i :: 0 <= i < k && FileUpload.AcceptsApk(Some(dropped[i]))
    {
      var before := |uploader.selected|;
      uploader.Drop(Some(dropped[k]));
      if |uploader.selected| > before {
        home.HandleFileSelect(uploader.selected[|uploader.selected| - 1]);
      }
      k := k + 1;
    }
    home.HandleScan();
    modalOpen, selected := home.isModalOpen, home.selectedFile;
  }

  /**
    Removing the file in the uploader does not tell the page: the uploader goes back to
    its drop zone while the page still holds the removed file and would hand its name to
    the form.
  */
  method RemoveKeepsPageSelection(apk: Web.File) returns (dropZoneShown: bool, selected: Option<Web.File>, shownName: string)
    requires FileUpload.AcceptsApk(Some(apk))
    ensures dropZoneShown && selected == Some(apk) && shownName == apk.name
  {
    var home := new Home();
    var uploader := new FileUpload.FileUploader();
    uploader.FileInput(Some(apk));
    home.HandleFileSelect(uploader.selected[0]);
    uploader.Remove();
    dropZoneShown, selected := uploader.DropZoneShown(), home.selectedFile;
    shownName := home.ModalFileName();
  }
}
