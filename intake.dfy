/**
  Attachment intake of the chat page: the MIME allow-list, the batch screening
  shared by the paste, drop and file-picker handlers, removal of one staged
  file, and the small presentation helpers (text preview, PDF label, which
  preview a file gets, when the quick replies and the "Thinking..." row show).

  Everything here is a pure function of its inputs; the page state that the
  handlers update lives in module Page.
*/
module Intake {
  import opened Wrappers

  /** A browser `File` as far as the page looks at it: its name and its
      declared MIME type (`file.type`). */
  datatype File = File(name: string, mimeType: string)

  /** What the handler tells the user: nothing (`Accepted`, `NoOp`), the
      "Maximum of 5 files are allowed!" toast (`TooMany`) or the
      "Only image, text, and pdf files are allowed" toast (`BadType`). */
  datatype Notice = Accepted | TooMany | BadType | NoOp

  /** Most files one batch may carry through the allow-list. */
  const MaxFiles := 5

  // ---------------------------------------------------------------------------
  // The allow-list

  /** JavaScript's `s.startsWith(p)`. */
  function StartsWith(s: string, p: string): (r: bool)
    ensures r <==> |p| <= |s| && s[..|p|] == p
  {
    if p == [] then true
    else if s == [] then false
    else s[0] == p[0] && StartsWith(s[1..], p[1..])
  }

  /** The MIME allow-list: images, text, and PDF. */
  predicate IsAllowedType(t: string)
  {
    StartsWith(t, "image/") || StartsWith(t, "text/") || t == "application/pdf"
  }

  predicate IsAllowed(f: File)
  {
    IsAllowedType(f.mimeType)
  }

  /** The allow-list in terms of sequence prefixes, and the types it is about. */
  lemma AllowedTypeIff(t: string)
    ensures IsAllowedType(t) <==>
      "image/" <= t || "text/" <= t || t == "application/pdf"
  {
  }

  lemma AllowedTypeExamples()
    ensures IsAllowedType("image/png") && IsAllowedType("text/plain")
    ensures IsAllowedType("application/pdf")
    ensures !IsAllowedType("application/zip") && !IsAllowedType("image")
    ensures !IsAllowedType("application/pdfx") && !IsAllowedType("")
  {
    assert "image/png"[..6] == "image/";
    assert "text/plain"[..5] == "text/";
    assert "application/zip" != "application/pdf" by {
      assert "application/zip"[12] != "application/pdf"[12];
    }
    assert "application/zip"[..6] != "image/" by {
      assert "application/zip"[0] != "image/"[0];
    }
    assert "application/zip"[..5] != "text/" by {
      assert "application/zip"[0] != "text/"[0];
    }
    assert "application/pdfx"[..6] != "image/" by {
      assert "application/pdfx"[0] != "image/"[0];
    }
    assert "application/pdfx"[..5] != "text/" by {
      assert "application/pdfx"[0] != "text/"[0];
    }
    assert "image"[..5] != "text/" by {
      assert "image"[0] != "text/"[0];
    }
  }

  // ---------------------------------------------------------------------------
  // Batches

  /** `files.filter(file => <allow-list>)`: the allowed files, in order. */
  function AllowedFiles(batch: seq<File>): (valid: seq<File>)
    ensures |valid| <= |batch|
    ensures forall f :: f in valid ==> f in batch && IsAllowed(f)
    ensures forall f :: f in batch && IsAllowed(f) ==> f in valid
  {
    if batch == [] then []
    else (if IsAllowed(batch[0]) then [batch[0]] else []) + AllowedFiles(batch[1..])
  }

  /** The filter works file by file and keeps the batch's order: filtering a
      concatenation concatenates the filtered parts. */
  lemma {:induction false} AllowedFilesAppend(a: seq<File>, b: seq<File>)
    ensures AllowedFiles(a + b) == AllowedFiles(a) + AllowedFiles(b)
  {
    if a == [] {
      assert a + b == b;
    } else {
      assert (a + b)[0] == a[0] && (a + b)[1..] == a[1..] + b;
      AllowedFilesAppend(a[1..], b);
      var head := if IsAllowed(a[0]) then [a[0]] else [];
      calc {
        AllowedFiles(a + b);
        head + AllowedFiles(a[1..] + b);
        head + (AllowedFiles(a[1..]) + AllowedFiles(b));
        (head + AllowedFiles(a[1..])) + AllowedFiles(b);
        AllowedFiles(a) + AllowedFiles(b);
      }
    }
  }

  /** One file is kept exactly when it is allowed. */
  lemma AllowedFilesSingle(f: File)
    ensures AllowedFiles([f]) == if IsAllowed(f) then [f] else []
  {
    assert [f][1..] == [];
  }

  /** The filter keeps every allowed file as often as the batch holds it and
      no other file, so its length is the number of allowed entries. */
  lemma {:induction false} AllowedFilesCount(batch: seq<File>, f: File)
    ensures multiset(AllowedFiles(batch))[f] == if IsAllowed(f) then multiset(batch)[f] else 0
  {
    if batch != [] {
      AllowedFilesCount(batch[1..], f);
      assert batch == [batch[0]] + batch[1..];
    }
  }

  predicate AllAllowed(batch: seq<File>)
  {
    forall f :: f in batch ==> IsAllowed(f)
  }

  /** When every file is allowed, the filter keeps the whole batch. */
  lemma {:induction false} AllowedFilesKeepsAll(batch: seq<File>)
    requires AllAllowed(batch)
    ensures AllowedFiles(batch) == batch
  {
    if batch != [] {
      assert AllAllowed(batch[1..]) by {
        forall f | f in batch[1..] ensures IsAllowed(f) { assert f in batch; }
      }
      AllowedFilesKeepsAll(batch[1..]);
      assert batch == [batch[0]] + batch[1..];
    }
  }

  /** When some file is not allowed, the filter drops at least one file. */
  lemma {:induction false} AllowedFilesDropsOne(batch: seq<File>)
    requires !AllAllowed(batch)
    ensures |AllowedFiles(batch)| < |batch|
  {
    var rest := AllowedFiles(batch[1..]);
    if IsAllowed(batch[0]) {
      assert !AllAllowed(batch[1..]) by {
        var g :| g in batch && !IsAllowed(g);
        assert batch == [batch[0]] + batch[1..];
        assert g in batch[1..];
      }
      AllowedFilesDropsOne(batch[1..]);
    }
  }

  /** The handlers test "every file passed" as `validFiles.length === files.length`;
      that test is exact, and when it holds the filter kept the whole batch. */
  lemma AllowedFilesWhole(batch: seq<File>)
    ensures |AllowedFiles(batch)| == |batch| <==> AllAllowed(batch)
    ensures AllAllowed(batch) ==> AllowedFiles(batch) == batch
  {
    if AllAllowed(batch) {
      AllowedFilesKeepsAll(batch);
    } else {
      AllowedFilesDropsOne(batch);
    }
  }

  /** The verdict of the paste and picker handlers on a batch: the count of
      allowed files is checked first, then whether every file is allowed. */
  function Screen(batch: seq<File>): Notice
  {
    if |AllowedFiles(batch)| > MaxFiles then TooMany
    else if AllAllowed(batch) then Accepted
    else BadType
  }

  /** A batch is accepted exactly when it has at most five files and every one
      of them is allowed. */
  lemma ScreenAcceptsIff(batch: seq<File>)
    ensures Screen(batch) == Accepted <==> |batch| <= MaxFiles && AllAllowed(batch)
    ensures Screen(batch) == TooMany ==> |batch| > MaxFiles
  {
    AllowedFilesWhole(batch);
  }

  /** Because the count check only counts allowed files, a batch of at most
      six files with a disallowed one among them draws the type error, never
      the count error. */
  lemma CountCheckSeesOnlyAllowed(batch: seq<File>)
    requires |batch| <= MaxFiles + 1 && !AllAllowed(batch)
    ensures Screen(batch) == BadType
  {
    AllowedFilesWhole(batch);
  }

  /** `clipboardData.items.map(i => i.getAsFile()).filter(f => f !== null)`:
      the clipboard items that are files, in order. */
  function PastedFiles(items: seq<Option<File>>): (batch: seq<File>)
    ensures |batch| <= |items|
    ensures batch == [] <==> forall k :: 0 <= k < |items| ==> items[k].None?
  {
    if items == [] then []
    else match items[0]
      case Some(f) => [f] + PastedFiles(items[1..])
      case None => PastedFiles(items[1..])
  }

  /** The paste batch keeps the clipboard's order: the batch of a
      concatenation is the concatenation of the batches. */
  lemma {:induction false} PastedFilesAppend(a: seq<Option<File>>, b: seq<Option<File>>)
    ensures PastedFiles(a + b) == PastedFiles(a) + PastedFiles(b)
  {
    if a == [] {
      assert a + b == b;
    } else {
      var ab := a + b;
      assert ab[0] == a[0] && ab[1..] == a[1..] + b;
      PastedFilesAppend(a[1..], b);
      PastedFilesUnfold(ab);
      PastedFilesUnfold(a);
      var head := if a[0].Some? then [a[0].value] else [];
      var restA, restB := PastedFiles(a[1..]), PastedFiles(b);
      assert PastedFiles(ab) == head + (restA + restB);
      assert head + (restA + restB) == (head + restA) + restB;
    }
  }

  lemma PastedFilesUnfold(items: seq<Option<File>>)
    requires items != []
    ensures PastedFiles(items) ==
      (if items[0].Some? then [items[0].value] else []) + PastedFiles(items[1..])
  {
  }

  /** The paste batch holds exactly the files among the clipboard items. */
  lemma PastedFilesMembers(items: seq<Option<File>>, f: File)
    ensures f in PastedFiles(items) <==> Some(f) in items
  {
    PastedFilesCount(items, f);
  }

  /** One clipboard item gives its file, or nothing when it is not a file. */
  lemma PastedFilesSingle(item: Option<File>)
    ensures PastedFiles([item]) == if item.Some? then [item.value] else []
  {
    assert [item][1..] == [];
  }

  /** Each file is in the paste batch as often as it is among the clipboard
      items. */
  lemma {:induction false} PastedFilesCount(items: seq<Option<File>>, f: File)
    ensures multiset(PastedFiles(items))[f] == multiset(items)[Some(f)]
  {
    if items != [] {
      PastedFilesCount(items[1..], f);
      assert multiset(items) == multiset{items[0]} + multiset(items[1..]) by {
        assert items == [items[0]] + items[1..];
      }
      var rest := PastedFiles(items[1..]);
      if items[0].Some? {
        assert PastedFiles(items) == [items[0].value] + rest;
      } else {
        assert PastedFiles(items) == rest;
      }
    }
  }

  // ---------------------------------------------------------------------------
  // Removing one staged file

  /** `Array.from(files).filter((_, i) => i !== index)`. */
  function RemoveAt(fs: seq<File>, index: int): (rest: seq<File>)
    ensures 0 <= index < |fs| ==> rest == fs[..index] + fs[index + 1..]
    ensures !(0 <= index < |fs|) ==> rest == fs
  {
    if fs == [] then []
    else (if index == 0 then [] else [fs[0]]) + RemoveAt(fs[1..], index - 1)
  }

  /** Deleting a valid index shortens the list by one and keeps the other files
      in their order; deleting the only file leaves nothing. */
  lemma RemoveAtShape(fs: seq<File>, index: int)
    requires 0 <= index < |fs|
    ensures |RemoveAt(fs, index)| == |fs| - 1
    ensures forall k :: 0 <= k < |fs| - 1 ==>
      RemoveAt(fs, index)[k] == (if k < index then fs[k] else fs[k + 1])
    ensures RemoveAt(fs, index) == [] <==> |fs| == 1
  {
  }

  // ---------------------------------------------------------------------------
  // Previews

  /** A JavaScript string as the page's `slice` and `length` see it: a
      sequence of UTF-16 code units (a character outside the basic plane
      takes two). */
  type CodeUnits = seq<bv16>

  /** Number of code units a text attachment preview keeps. */
  const PreviewLength := 100

  /** The text a `TextFilePreview` holds after the reader loads: the first 100
      code units of the file text, or "" when the reader result is not a
      string. */
  function PreviewContent(result: Option<CodeUnits>): (content: CodeUnits)
    ensures result.Some? ==> content <= result.value
    ensures result.Some? ==> |content| == if |result.value| < PreviewLength then |result.value| else PreviewLength
    ensures result.None? ==> content == []
  {
    match result
    case Some(text) => if |text| < PreviewLength then text else text[..PreviewLength]
    case None => []
  }

  /** Whether the preview draws "..." after the content. */
  predicate ShowsEllipsis(content: CodeUnits)
  {
    |content| >= PreviewLength
  }

  /** The ellipsis appears exactly when the file text has at least 100 code
      units, so a text of exactly 100 units gets one too, although nothing was
      cut off. */
  lemma EllipsisIff(text: CodeUnits)
    ensures ShowsEllipsis(PreviewContent(Some(text))) <==> |text| >= PreviewLength
    ensures |text| == PreviewLength ==> PreviewContent(Some(text)) == text && ShowsEllipsis(text)
  {
  }

  /** `s.replaceAll(from, to)` for a one-character pattern. */
  function ReplaceChar(s: string, from: char, to: char): (r: string)
    ensures |r| == |s|
    ensures forall k :: 0 <= k < |s| ==> r[k] == if s[k] == from then to else s[k]
  {
    if s == [] then []
    else [if s[0] == from then to else s[0]] + ReplaceChar(s[1..], from, to)
  }

  /** The caption of a staged PDF: its name with `_` and `-` turned into spaces. */
  function PdfLabel(name: string): string
  {
    ReplaceChar(ReplaceChar(name, '_', ' '), '-', ' ')
  }

  lemma PdfLabelSpec(name: string)
    ensures |PdfLabel(name)| == |name|
    ensures forall k :: 0 <= k < |name| ==>
      PdfLabel(name)[k] == if name[k] == '_' || name[k] == '-' then ' ' else name[k]
    ensures '_' !in PdfLabel(name) && '-' !in PdfLabel(name)
  {
  }

  /** How the page draws an attachment: by the prefix of its type ("image",
      "text", without the slash) or the exact PDF type; anything else is not
      drawn at all. */
  datatype PreviewKind = ImagePreview | TextPreview | PdfPreview | NoPreview

  function KindOf(mimeType: string): PreviewKind
  {
    if StartsWith(mimeType, "image") then ImagePreview
    else if StartsWith(mimeType, "text") then TextPreview
    else if mimeType == "application/pdf" then PdfPreview
    else NoPreview
  }

  /** Every allowed file gets a preview of the matching kind. */
  lemma AllowedFilesArePreviewed(t: string)
    requires IsAllowedType(t)
    ensures KindOf(t) != NoPreview
    ensures StartsWith(t, "image/") ==> KindOf(t) == ImagePreview
    ensures StartsWith(t, "text/") ==> KindOf(t) == TextPreview
    ensures t == "application/pdf" ==> KindOf(t) == PdfPreview
  {
    if StartsWith(t, "image/") {
      assert t[..5] == t[..6][..5];
    } else if StartsWith(t, "text/") {
      assert t[..4] == t[..5][..4];
      assert t[0] == 't';
    }
  }

  // ---------------------------------------------------------------------------
  // Visibility conditions

  /** The quick replies show when nothing is staged (`!files`) and the input
      box is empty. */
  predicate QuickRepliesVisible(files: Option<seq<File>>, input: string)
  {
    files.None? && |input| == 0
  }

  /** The staged-file panel shows when a non-empty set is staged and not hidden. */
  predicate PreviewPanelVisible(files: Option<seq<File>>, viewFiles: bool)
  {
    files.Some? && |files.value| > 0 && viewFiles
  }

  /** Author of a chat message. */
  datatype Role = User | Assistant | System | Data

  /** The "Thinking..." row: a reply is loading and the last message is not
      the assistant's. The page reads the last message only while loading,
      and the chat driver has appended the user's message by then. */
  predicate ThinkingVisible(isLoading: bool, roles: seq<Role>)
    requires isLoading ==> |roles| > 0
  {
    isLoading && roles[|roles| - 1] != Assistant
  }

  /** The latest turn of a transcript: its messages from the last user
      message on (all of it when there is no user message). */
  function LatestTurn(roles: seq<Role>): (turn: seq<Role>)
    ensures |turn| <= |roles| && turn == roles[|roles| - |turn|..]
    ensures roles != [] ==> turn != [] && turn[|turn| - 1] == roles[|roles| - 1]
    ensures User in roles ==> turn[0] == User && User !in turn[1..]
    ensures User !in roles ==> turn == roles
  {
    if roles == [] then []
    else if roles[|roles| - 1] == User then [User]
    else
      var prefix := roles[..|roles| - 1];
      assert roles == prefix + [roles[|roles| - 1]];
      LatestTurn(prefix) + [roles[|roles| - 1]]
  }

  /** The latest turn already holds a reply from the assistant. */
  predicate TurnAnswered(roles: seq<Role>)
  {
    Assistant in LatestTurn(roles)
  }

  /** In a transcript of user and assistant messages, "Thinking..." shows
      while loading exactly when the latest turn has no assistant reply yet. */
  lemma ThinkingWhileTurnUnanswered(roles: seq<Role>)
    requires |roles| > 0 && forall k :: 0 <= k < |roles| ==> roles[k] in {User, Assistant}
    ensures ThinkingVisible(true, roles) <==> !TurnAnswered(roles)
  {
    var turn := LatestTurn(roles);
    if roles[|roles| - 1] == User {
      assert turn == [User];
    } else {
      assert turn[|turn| - 1] == Assistant;
    }
  }

  lemma UserTurn()
    ensures LatestTurn([User]) == [User]
  {
  }

  lemma AnsweredTurn()
    ensures LatestTurn([User, Assistant]) == [User, Assistant]
  {
    UserTurn();
    assert [User, Assistant][..1] == [User];
  }

  /** With a data message after the assistant's reply, "Thinking..." shows
      although the latest turn is already answered. */
  lemma ThinkingDespiteAnsweredTurn()
    ensures ThinkingVisible(true, [User, Assistant, Data])
    ensures TurnAnswered([User, Assistant, Data])
  {
    AnsweredTurn();
    assert [User, Assistant, Data][..2] == [User, Assistant];
  }
}
