/**
  The chat page's own state and the event handlers that update it: staging
  attachments by paste, drop or file picker, deleting a staged file, the drag
  highlight, and sending. The chat driver that owns the transcript is outside
  this model; what the page hands to it (`handleSubmit`, `append`) is recorded
  in `submissions` and `appended`.
*/
module Page {
  import opened Wrappers
  import opened Intake
  import opened QuickReplies

  /** What `onSubmit` passes to the chat driver's `handleSubmit`: the input
      text of the moment, the attachments and the `allowEmptySubmit` flag. */
  datatype Submission = Submission(text: string, attachments: Option<seq<File>>, allowEmptySubmit: bool)

  class ChatPage {
    /** The staged files (`null` or a `FileList`). */
    var files: Option<seq<File>>
    /** Whether the staged-file panel is expanded. */
    var viewFiles: bool
    /** Whether a drag is over the chat area. */
    var isDragging: bool
    /** The three suggestions on offer. */
    var quickReplies: seq<string>
    /** The text in the input box (held by the chat driver). */
    var input: string
    /** Calls made to the chat driver's `handleSubmit`, oldest first. */
    var submissions: seq<Submission>
    /** Quick replies handed to the chat driver's `append`, oldest first. */
    var appended: seq<string>
    /** The array of canned prompts that every draw copies. */
    const pool: array<string>

    /** The pool holds the canned prompts, and the suggestions on offer are
        three different prompts of it. */
    ghost predicate Valid()
      reads this, pool
    {
      && pool[..] == QuickRepliesList
      && |quickReplies| == DrawSize
      && Distinct(quickReplies)
      && forall q :: q in quickReplies ==> q in QuickRepliesList
    }

    /** Draw three suggestions from the pool (`getRandomQuickReplies(quickRepliesList)`). */
    method Resample()
      requires pool[..] == QuickRepliesList
      modifies this`quickReplies
      ensures Valid()
    {
      var draw := RandomQuickReplies(pool);
      DrawFromPool(draw);
      quickReplies := draw;
    }

    /** The page as first rendered: nothing staged, panel expanded, no drag,
        and a first draw of suggestions (the mount effect). */
    constructor ()
      ensures Valid()
      ensures files == None && viewFiles && !isDragging && input == ""
      ensures submissions == [] && appended == []
    {
      pool := new string[|QuickRepliesList|](k requires 0 <= k < |QuickRepliesList| => QuickRepliesList[k]);
      files := None;
      viewFiles := true;
      isDragging := false;
      input := "";
      submissions := [];
      appended := [];
      quickReplies := [];
      new;
      assert pool[..] == QuickRepliesList;
      Resample();
    }

    /** `handleInputChange`: the chat driver stores the typed text. */
    method HandleInputChange(value: string)
      requires Valid()
      modifies this`input
      ensures Valid()
      ensures input == value
    {
      input := value;
    }

    /** `handlePaste`: the clipboard items that are files form the batch; an
        absent item list or a batch without files changes nothing; otherwise
        the batch is staged only when it passes screening. */
    method HandlePaste(items: Option<seq<Option<File>>>) returns (n: Notice)
      requires Valid()
      modifies this`files, this`viewFiles
      ensures Valid()
      ensures var batch := if items.Some? then PastedFiles(items.value) else [];
        if batch == [] then
          n == NoOp && files == old(files) && viewFiles == old(viewFiles)
        else
          n == Screen(batch) &&
          (n == Accepted ==> files == Some(batch) && viewFiles) &&
          (n != Accepted ==> files == old(files) && viewFiles == old(viewFiles))
    {
      n := NoOp;
      if items.Some? {
        var batch := PastedFiles(items.value);
        if |batch| > 0 {
          var valid := AllowedFiles(batch);
          AllowedFilesWhole(batch);
          if |valid| > MaxFiles {
            n := TooMany;
          } else {
            if |valid| == |batch| {
              files := Some(valid);
              viewFiles := true;
              n := Accepted;
            } else {
              n := BadType;
            }
          }
        }
      }
    }

    /** `handleDragOver`. */
    method HandleDragOver()
      requires Valid()
      modifies this`isDragging
      ensures Valid()
      ensures isDragging
    {
      isDragging := true;
    }

    /** `handleDragLeave`. */
    method HandleDragLeave()
      requires Valid()
      modifies this`isDragging
      ensures Valid()
      ensures !isDragging
    {
      isDragging := false;
    }

    /** `handleDrop`: screens the dropped batch like paste does, but once the
        count check has passed it stages the raw dropped batch whatever the
        type check said, disallowed files included; the drag highlight always
        ends. */
    method HandleDrop(dropped: seq<File>) returns (n: Notice)
      requires Valid()
      modifies this`files, this`viewFiles, this`isDragging
      ensures Valid()
      ensures !isDragging
      ensures dropped == [] ==> n == NoOp && files == old(files) && viewFiles == old(viewFiles)
      ensures dropped != [] ==> n == Screen(dropped)
      ensures dropped != [] && n == TooMany ==> files == old(files) && viewFiles == old(viewFiles)
      ensures dropped != [] && n != TooMany ==> files == Some(dropped)
      ensures dropped != [] && n == Accepted ==> viewFiles
      ensures dropped != [] && n == BadType ==> viewFiles == old(viewFiles)
    {
      n := NoOp;
      if |dropped| > 0 {
        var valid := AllowedFiles(dropped);
        AllowedFilesWhole(dropped);
        if |valid| > MaxFiles {
          n := TooMany;
        } else {
          if |valid| == |dropped| {
            files := Some(valid);
            viewFiles := true;
            n := Accepted;
          } else {
            n := BadType;
          }
          files := Some(dropped);
        }
      }
      isDragging := false;
    }

    /** `handleFileChange`: the picker's selection, when there is one, is
        screened and staged like a pasted batch; an empty selection is staged
        as an empty set. */
    method HandleFileChange(selected: Option<seq<File>>) returns (n: Notice)
      requires Valid()
      modifies this`files, this`viewFiles
      ensures Valid()
      ensures selected.None? ==> n == NoOp && files == old(files) && viewFiles == old(viewFiles)
      ensures selected.Some? ==> n == Screen(selected.value)
      ensures selected.Some? && n == Accepted ==> files == selected && viewFiles
      ensures selected.Some? && n != Accepted ==> files == old(files) && viewFiles == old(viewFiles)
    {
      n := NoOp;
      if selected.Some? {
        var batch := selected.value;
        var valid := AllowedFiles(batch);
        AllowedFilesWhole(batch);
        if |valid| > MaxFiles {
          n := TooMany;
        } else {
          if |valid| == |batch| {
            files := Some(valid);
            viewFiles := true;
            n := Accepted;
          } else {
            n := BadType;
          }
        }
      }
    }

    /** The "View"/"Hide" toggle of the staged-file panel. */
    method ToggleViewFiles()
      requires Valid()
      modifies this`viewFiles
      ensures Valid()
      ensures viewFiles == !old(viewFiles)
    {
      viewFiles := !viewFiles;
    }

    /** `handleFileDelete`: with files staged, drop the one at `index`; if none
        is left, clear the staged set and expand the panel. With nothing
        staged, nothing happens. The 200 ms delay is not modelled. */
    method HandleFileDelete(index: int)
      requires Valid()
      modifies this`files, this`viewFiles
      ensures Valid()
      ensures old(files).None? ==> files == None && viewFiles == old(viewFiles)
      ensures old(files).Some? && RemoveAt(old(files).value, index) == [] ==>
        files == None && viewFiles
      ensures old(files).Some? && RemoveAt(old(files).value, index) != [] ==>
        files == Some(RemoveAt(old(files).value, index)) && viewFiles == old(viewFiles)
    {
      if files.Some? {
        var updated := RemoveAt(files.value, index);
        files := Some(updated);
        if |updated| == 0 {
          viewFiles := true;
          files := None;
        }
      }
    }

    /** `onSubmit`: hand the input and any staged files to the chat driver,
        with `allowEmptySubmit` set exactly when files are staged; then draw
        new suggestions and clear the staged set. */
    method OnSubmit()
      requires Valid()
      modifies this`submissions, this`quickReplies, this`files
      ensures Valid()
      ensures submissions == old(submissions) + [Submission(input, old(files), old(files).Some?)]
      ensures files == None
      ensures QuickRepliesVisible(files, input) <==> input == ""
    {
      var options := files;
      var keyCount := if options.Some? then 1 else 0;
      var allowEmptySubmit := keyCount != 0;
      submissions := submissions + [Submission(input, options, allowEmptySubmit)];
      Resample();
      files := None;
    }

    /** `handleAppend`: send a suggestion as a user message and draw new
        suggestions. */
    method HandleAppend(reply: string)
      requires Valid()
      modifies this`appended, this`quickReplies
      ensures Valid()
      ensures appended == old(appended) + [reply]
    {
      appended := appended + [reply];
      Resample();
    }
  }
}
