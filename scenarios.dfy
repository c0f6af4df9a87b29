/**
  Clients of the page: sequences of events on a fresh page, with what the
  handlers' contracts let a caller conclude about the outcome.
*/
module Scenarios {
  import opened Wrappers
  import opened Intake
  import opened Page

  const Png := File("receipt.png", "image/png")
  const Exe := File("setup.exe", "application/x-msdownload")
  const Zip := File("returns.zip", "application/zip")
  const Pdf := File("w2_form-2024.pdf", "application/pdf")

  lemma KnownTypes()
    ensures IsAllowed(Png) && IsAllowed(Pdf)
    ensures !IsAllowed(Exe) && !IsAllowed(Zip)
  {
    assert Png.mimeType[..6] == "image/";
    assert Exe.mimeType[0] != "image/"[0] && Exe.mimeType[0] != "text/"[0];
    assert Exe.mimeType[..6] != "image/" && Exe.mimeType[..5] != "text/";
    assert Exe.mimeType != "application/pdf" by { assert |Exe.mimeType| != |"application/pdf"|; }
    assert Zip.mimeType[0] != "image/"[0] && Zip.mimeType[0] != "text/"[0];
    assert Zip.mimeType[..6] != "image/" && Zip.mimeType[..5] != "text/";
    assert Zip.mimeType != "application/pdf" by { assert Zip.mimeType[12] != "application/pdf"[12]; }
  }

  /** Dropping six images is refused with the count error and stages nothing. */
  method DropSixImages() returns (n: Notice, staged: Option<seq<File>>)
    ensures n == TooMany && staged == None
  {
    var page := new ChatPage();
    KnownTypes();
    var six := [Png, Png, Png, Png, Png, Png];
    assert AllowedFiles(six) == six by { AllowedFilesWhole(six); }
    n := page.HandleDrop(six);
    staged := page.files;
  }

  lemma PasteBatch()
    ensures PastedFiles([Some(Png), None, Some(Exe)]) == [Png, Exe]
    ensures Screen([Png, Exe]) == BadType
  {
    KnownTypes();
    var items := [Some(Png), None, Some(Exe)];
    assert items[1..][1..] == [Some(Exe)];
    assert PastedFiles(items[1..][1..]) == [Exe];
    assert !AllAllowed([Png, Exe]) by { assert Exe in [Png, Exe]; }
    CountCheckSeesOnlyAllowed([Png, Exe]);
  }

  /** Pasting an image and an executable draws the type error and stages
      neither. */
  method PasteImageAndExecutable() returns (n: Notice, staged: Option<seq<File>>)
    ensures n == BadType && staged == None
  {
    var page := new ChatPage();
    KnownTypes();
    var items := [Some(Png), None, Some(Exe)];
    PasteBatch();
    n := page.HandlePaste(Some(items));
    staged := page.files;
  }

  /** Dropping an image and an archive draws the type error, yet both files
      end up staged. */
  method DropImageAndArchive() returns (n: Notice, staged: Option<seq<File>>)
    ensures n == BadType && staged == Some([Png, Zip])
  {
    var page := new ChatPage();
    KnownTypes();
    assert !AllAllowed([Png, Zip]) by { assert Zip in [Png, Zip]; }
    CountCheckSeesOnlyAllowed([Png, Zip]);
    n := page.HandleDrop([Png, Zip]);
    staged := page.files;
  }

  lemma ImageAndPdfAccepted()
    ensures Screen([Png, Pdf]) == Accepted
  {
    KnownTypes();
    assert AllAllowed([Png, Pdf]);
    ScreenAcceptsIff([Png, Pdf]);
  }

  /** Sending with two staged files hands both to the chat driver, with
      `allowEmptySubmit` set, and clears the staged set. */
  method SendWithTwoFiles() returns (sent: Submission, staged: Option<seq<File>>)
    ensures sent == Submission("", Some([Png, Pdf]), true) && staged == None
  {
    var page := new ChatPage();
    ImageAndPdfAccepted();
    var n := page.HandleFileChange(Some([Png, Pdf]));
    assert page.files == Some([Png, Pdf]) && page.submissions == [] && page.input == "";
    page.OnSubmit();
    sent := page.submissions[0];
    staged := page.files;
  }

  /** Deleting both staged files one after the other clears the staged set
      and expands the panel again. */
  method DeleteAll() returns (staged: Option<seq<File>>, view: bool)
    ensures staged == None && view && !PreviewPanelVisible(staged, view)
  {
    var page := new ChatPage();
    ImageAndPdfAccepted();
    var n := page.HandleFileChange(Some([Png, Pdf]));
    page.ToggleViewFiles();
    page.HandleFileDelete(0);
    page.HandleFileDelete(0);
    staged, view := page.files, page.viewFiles;
  }

  /** Five images and an archive dropped together: only five files pass the
      allow-list, so the count check lets the batch through, and all six files
      are staged behind the type error. */
  method DropFiveImagesAndArchive() returns (n: Notice, staged: Option<seq<File>>)
    ensures n == BadType && staged.Some? && |staged.value| == 6 && Zip in staged.value
  {
    var page := new ChatPage();
    var batch := [Png, Png, Png, Png, Png, Zip];
    FiveImagesAndArchive();
    n := page.HandleDrop(batch);
    staged := page.files;
  }

  lemma FiveImagesAndArchive()
    ensures Screen([Png, Png, Png, Png, Png, Zip]) == BadType
  {
    KnownTypes();
    var batch := [Png, Png, Png, Png, Png, Zip];
    assert !AllAllowed(batch) by { assert batch[5] == Zip; }
    CountCheckSeesOnlyAllowed(batch);
  }

  /** An empty selection from the picker stages an empty set: the quick
      replies disappear although nothing is attached, and the next send still
      sets `allowEmptySubmit`. */
  method PickNothing() returns (n: Notice, visible: bool, sent: Submission)
    ensures n == Accepted && !visible
    ensures sent == Submission("", Some([]), true)
  {
    var page := new ChatPage();
    ScreenAcceptsIff([]);
    n := page.HandleFileChange(Some([]));
    visible := QuickRepliesVisible(page.files, page.input);
    page.OnSubmit();
    sent := page.submissions[0];
  }
}
