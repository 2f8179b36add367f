/** The post editor page (pages/AddPost.jsx): when the editor content may be published, how the
    post title is taken from it, and what the save request carries. */
module AddPost {
  import opened Base
  import opened Text

  const MinParagraph := 50
  const DefaultTitle := "Untitled Post"

  /** An editor block: its type and its text. */
  datatype EditorBlock = EditorBlock(kind: string, text: string)

  /** The body of the create request. */
  datatype Payload = Payload(content: seq<EditorBlock>, title: string)

  predicate IsHeading(b: EditorBlock)
  {
    b.kind == "header" && Trim(Js, b.text) != []
  }

  predicate IsLongParagraph(b: EditorBlock)
  {
    b.kind == "paragraph" && |Trim(Js, b.text)| >= MinParagraph
  }

  /** Publishable content: some header with visible text and some paragraph of at least 50
      characters once trimmed. */
  predicate Publishable(blocks: seq<EditorBlock>)
    ensures Publishable(blocks) ==> |blocks| >= 2
  {
    (exists i :: 0 <= i < |blocks| && IsHeading(blocks[i])) &&
    (exists i :: 0 <= i < |blocks| && IsLongParagraph(blocks[i]))
  }

  /** The post title: the trimmed text of the first block when that block is a header whose
      trimmed text is not empty, otherwise "Untitled Post". */
  function TitleOf(blocks: seq<EditorBlock>): (t: string)
    requires blocks != []
    ensures IsHeading(blocks[0]) ==> t == Trim(Js, blocks[0].text)
    ensures !IsHeading(blocks[0]) ==> t == DefaultTitle
    ensures t != []
  {
    var first := blocks[0];
    if first.kind == "header" && first.text != [] && Trim(Js, first.text) != [] then Trim(Js, first.text)
    else DefaultTitle
  }

  /** Only the first block decides the title. */
  lemma TitleIgnoresLaterBlocks(a: seq<EditorBlock>, b: seq<EditorBlock>)
    requires a != [] && b != [] && a[0] == b[0]
    ensures TitleOf(a) == TitleOf(b)
  {
  }

  /** The image tool's upload field name. */
  function UploadField(username: Option<string>): (f: string)
    ensures TruthyString(username) ==> f == username.value + "-post-image"
    ensures !TruthyString(username) ==> f == "post-image"
  {
    if TruthyString(username) then username.value + "-post-image" else "post-image"
  }

  class Editor {
    var canSave: bool
    var sent: seq<Payload>

    constructor ()
      ensures !canSave && sent == []
    {
      canSave := false;
      sent := [];
    }

    /** The editor's `onChange`: one pass over the blocks sets the two flags. */
    method OnChange(blocks: seq<EditorBlock>)
      modifies this
      ensures canSave == Publishable(blocks)
      ensures sent == old(sent)
    {
      var hasHeading := false;
      var hasPara := false;
      var i := 0;
      while i < |blocks|
        invariant 0 <= i <= |blocks|
        invariant hasHeading <==> exists j :: 0 <= j < i && IsHeading(blocks[j])
        invariant hasPara <==> exists j :: 0 <= j < i && IsLongParagraph(blocks[j])
      {
        var block := blocks[i];
        if IsHeading(block) {
          hasHeading := true;
        }
        if IsLongParagraph(block) {
          hasPara := true;
        }
        i := i + 1;
      }
      canSave := hasHeading && hasPara;
    }

    /** `handlePostSave`: nothing is sent without an editor instance or without blocks;
        otherwise exactly the content and its title. */
    method Save(hasInstance: bool, blocks: Option<seq<EditorBlock>>) returns (payload: Option<Payload>)
      modifies this
      ensures !hasInstance || blocks.None? || blocks.value == [] ==> payload.None? && sent == old(sent)
      ensures hasInstance && blocks.Some? && blocks.value != [] ==>
        payload == Some(Payload(blocks.value, TitleOf(blocks.value))) && sent == old(sent) + [payload.value]
      ensures canSave == old(canSave)
    {
      if !hasInstance {
        return None;
      }
      if blocks.None? || |blocks.value| == 0 {
        return None;
      }
      var title := TitleOf(blocks.value);
      payload := Some(Payload(blocks.value, title));
      sent := sent + [payload.value];
    }
  }
}
