/**
 * `createGeminiPayload` and `createOllamaPayload`: the request bodies built
 * from the prompt and the staged files, in file order. Files whose content is
 * absent or empty contribute nothing to either.
 */
module Payload {
  import opened Wrappers
  import opened JsStrings
  import opened Attachments

  /** One part of a hosted-provider request: text, or inline base64 data with its MIME type. */
  datatype Part = TextPart(text: string) | InlineData(mimeType: string, data: string)

  datatype Content = Content(role: string, parts: seq<Part>)

  /** `{ contents: [...] }`. */
  datatype GeminiPayload = GeminiPayload(contents: seq<Content>)

  /** `{ model, prompt, stream }`. */
  datatype OllamaPayload = OllamaPayload(model: string, prompt: string, stream: bool)

  /** The files that contribute to a payload, in order: those whose content is truthy. */
  function WithContent(files: seq<FileObj>): (r: seq<FileObj>)
    ensures |r| <= |files|
    ensures forall k :: 0 <= k < |r| ==> HasContent(r[k])
  {
    if files == [] then []
    else (if HasContent(files[0]) then [files[0]] else []) + WithContent(files[1..])
  }

  /** The filter keeps exactly the files with content: a file is kept if and only if it is staged and has content. */
  lemma {:induction false} WithContentMembers(files: seq<FileObj>, f: FileObj)
    ensures f in WithContent(files) <==> f in files && HasContent(f)
  {
    if files != [] {
      WithContentMembers(files[1..], f);
      assert f in files <==> f == files[0] || f in files[1..];
    }
  }

  lemma {:induction false} WithContentAppend(a: seq<FileObj>, b: seq<FileObj>)
    ensures WithContent(a + b) == WithContent(a) + WithContent(b)
  {
    if a == [] {
      assert a + b == b;
    } else {
      var head := if HasContent(a[0]) then [a[0]] else [];
      assert (a + b)[0] == a[0] && (a + b)[1..] == a[1..] + b;
      assert WithContent(a + b) == head + WithContent(a[1..] + b);
      WithContentAppend(a[1..], b);
      assert WithContent(a) == head + WithContent(a[1..]);
      assert head + (WithContent(a[1..]) + WithContent(b)) == (head + WithContent(a[1..])) + WithContent(b);
    }
  }

  /** `Content of <name>:\n\n<content>`. */
  function ContentOf(f: FileObj): string
    requires f.content.Some?
  {
    "Content of " + f.name + ":\n\n" + f.content.value
  }

  /** The part a file with content becomes: inline data for image types, its labelled text otherwise. */
  function FilePart(f: FileObj): Part
    requires HasContent(f)
  {
    if IsImageType(f.mimeType) then InlineData(f.mimeType, f.content.value) else TextPart(ContentOf(f))
  }

  /** The `forEach` over the files: one part per file with content, in file order. */
  function FileParts(files: seq<FileObj>): (parts: seq<Part>)
    ensures |parts| == |WithContent(files)|
    ensures forall k :: 0 <= k < |parts| ==> parts[k] == FilePart(WithContent(files)[k])
  {
    if files == [] then []
    else
      var f, rest := files[0], FileParts(files[1..]);
      if IsImageType(f.mimeType) && HasContent(f) then
        assert WithContent(files) == [f] + WithContent(files[1..]);
        [InlineData(f.mimeType, f.content.value)] + rest
      else if HasContent(f) then
        assert WithContent(files) == [f] + WithContent(files[1..]);
        [TextPart(ContentOf(f))] + rest
      else
        rest
  }

  /**
   * `createGeminiPayload`: a single `user` entry whose first part is the prompt
   * itself, followed by one part per file with content, in file order.
   */
  function CreateGeminiPayload(userPrompt: string, files: seq<FileObj>): (p: GeminiPayload)
    ensures |p.contents| == 1 && p.contents[0].role == "user"
    ensures var parts := p.contents[0].parts;
      && |parts| == 1 + |WithContent(files)|
      && parts[0] == TextPart(userPrompt)
      && forall k :: 0 <= k < |WithContent(files)| ==> parts[k + 1] == FilePart(WithContent(files)[k])
  {
    var rest := FileParts(files);
    var parts := [TextPart(userPrompt)] + rest;
    assert forall k :: 0 <= k < |rest| ==> parts[k + 1] == rest[k];
    GeminiPayload([Content("user", parts)])
  }

  /** The block `createOllamaPayload` appends for one file with content. */
  function Block(f: FileObj): string
    requires f.content.Some?
  {
    "\n\n" + ContentOf(f)
  }

  /** The blocks of a list of files with content, concatenated in order. */
  function Blocks(files: seq<FileObj>): string
    requires forall k :: 0 <= k < |files| ==> HasContent(files[k])
  {
    if files == [] then "" else assert HasContent(files[0]); Block(files[0]) + Blocks(files[1..])
  }

  /** The `combinedPrompt += ...` loop, a left fold over the files. */
  function AppendBlocks(combined: string, files: seq<FileObj>): string
    decreases files
  {
    if files == [] then combined
    else AppendBlocks(if HasContent(files[0]) then combined + Block(files[0]) else combined, files[1..])
  }

  /** `createOllamaPayload` for the selected model; a whole (non-streamed) reply is requested. */
  function CreateOllamaPayload(selectedModel: string, userPrompt: string, files: seq<FileObj>): (p: OllamaPayload)
    ensures p.model == selectedModel && !p.stream
    ensures p.prompt == userPrompt + Blocks(WithContent(files))
  {
    AppendBlocksSpec(userPrompt, files);
    OllamaPayload(selectedModel, AppendBlocks(userPrompt, files), false)
  }

  /** The left fold appends, after what it started with, the blocks of exactly the files with content. */
  lemma {:induction false} AppendBlocksSpec(combined: string, files: seq<FileObj>)
    ensures AppendBlocks(combined, files) == combined + Blocks(WithContent(files))
    decreases files
  {
    if files != [] {
      var f := files[0];
      AppendBlocksSpec(if HasContent(f) then combined + Block(f) else combined, files[1..]);
      var tail := WithContent(files[1..]);
      if HasContent(f) {
        assert WithContent(files) == [f] + tail;
        assert ([f] + tail)[1..] == tail;
        assert Blocks([f] + tail) == Block(f) + Blocks(tail);
        assert combined + Block(f) + Blocks(tail) == combined + (Block(f) + Blocks(tail));
      } else {
        assert WithContent(files) == tail;
      }
    } else {
      assert combined + "" == combined;
    }
  }

  /** Blocks of a concatenation are the concatenation of blocks. */
  lemma {:induction false} BlocksAppend(a: seq<FileObj>, b: seq<FileObj>)
    requires forall k :: 0 <= k < |a| ==> HasContent(a[k])
    requires forall k :: 0 <= k < |b| ==> HasContent(b[k])
    ensures Blocks(a + b) == Blocks(a) + Blocks(b)
  {
    if a == [] {
      assert a + b == b;
    } else {
      assert (a + b)[1..] == a[1..] + b;
      BlocksAppend(a[1..], b);
    }
  }

  /** One more file adds its block at the end of the blocks, and only if it has content. */
  lemma BlocksSnoc(files: seq<FileObj>, f: FileObj)
    ensures Blocks(WithContent(files + [f])) == Blocks(WithContent(files)) + (if HasContent(f) then Block(f) else "")
  {
    var before := WithContent(files);
    WithContentAppend(files, [f]);
    assert [f][1..] == [];
    if HasContent(f) {
      assert WithContent([f]) == [f];
      BlocksAppend(before, [f]);
      assert Blocks([f]) == Block(f) + "";
    } else {
      assert WithContent([f]) == [];
      assert before + [] == before;
    }
  }

  /** Attaching one more file extends the combined prompt by that file's block, and only if it has content. */
  lemma OllamaPromptSnoc(selectedModel: string, userPrompt: string, files: seq<FileObj>, f: FileObj)
    ensures CreateOllamaPayload(selectedModel, userPrompt, files + [f]).prompt
         == CreateOllamaPayload(selectedModel, userPrompt, files).prompt + (if HasContent(f) then Block(f) else "")
  {
    BlocksSnoc(files, f);
    var tail := if HasContent(f) then Block(f) else "";
    assert userPrompt + (Blocks(WithContent(files)) + tail) == userPrompt + Blocks(WithContent(files)) + tail;
  }

  /**
   * Both payloads carry the same text for non-image files: the local prompt's block
   * for such a file is the hosted request's text part with `\n\n` in front.
   */
  lemma TextPartMatchesBlock(f: FileObj)
    requires HasContent(f) && !IsImageType(f.mimeType)
    ensures FilePart(f) == TextPart(Block(f)[2..])
  {
  }

  /** Files with no content contribute nothing. */
  lemma {:induction false} WithContentNone(files: seq<FileObj>)
    requires forall k :: 0 <= k < |files| ==> !HasContent(files[k])
    ensures WithContent(files) == []
  {
    if files != [] {
      WithContentNone(files[1..]);
    }
  }

  /**
   * Files submitted before their extractor has finished are sent as nothing at all:
   * with only freshly staged files, both payloads carry the prompt alone.
   */
  lemma PendingFilesSendNothing(selectedModel: string, userPrompt: string, picked: seq<PickedFile>)
    ensures CreateGeminiPayload(userPrompt, Stage([], picked)).contents[0].parts == [TextPart(userPrompt)]
    ensures CreateOllamaPayload(selectedModel, userPrompt, Stage([], picked)).prompt == userPrompt
  {
    var staged := Stage([], picked);
    forall k | 0 <= k < |staged| ensures !HasContent(staged[k]) {
      assert staged[k] == staged[0 + k];
    }
    WithContentNone(staged);
    assert userPrompt + "" == userPrompt;
  }

  lemma BothHaveContent(image: FileObj, text: FileObj)
    requires HasContent(image) && HasContent(text)
    ensures WithContent([image, text]) == [image, text]
  {
  }

  /** An image with content and a text file with content, in that order, sent to the hosted provider. */
  lemma HostedImageAndText(userPrompt: string, image: FileObj, text: FileObj)
    requires image.mimeType == "image/png" && image.content == Some("Zm9v")
    requires text.mimeType == "text/plain" && text.content == Some("bar")
    ensures CreateGeminiPayload(userPrompt, [image, text]).contents[0].parts
         == [TextPart(userPrompt), InlineData("image/png", "Zm9v"), TextPart("Content of " + text.name + ":\n\nbar")]
  {
    assert IsImageType(image.mimeType);
    assert text.mimeType[..6][0] != "image/"[0];
    BothHaveContent(image, text);
    var parts := CreateGeminiPayload(userPrompt, [image, text]).contents[0].parts;
    assert |parts| == 3;
    assert parts[1] == FilePart(image) == InlineData("image/png", "Zm9v");
    assert parts[2] == FilePart(text) == TextPart("Content of " + text.name + ":\n\nbar");
  }

  /** The same two files sent to the local provider: both blocks, in file order, after the prompt. */
  lemma LocalImageAndText(selectedModel: string, userPrompt: string, image: FileObj, text: FileObj)
    requires image.content == Some("Zm9v") && text.content == Some("bar")
    ensures CreateOllamaPayload(selectedModel, userPrompt, [image, text]).prompt
         == userPrompt + Block(image) + Block(text)
    ensures Block(text) == "\n\nContent of " + text.name + ":\n\nbar"
  {
    BothHaveContent(image, text);
    assert [image, text][1..] == [text];
    assert [text][1..] == [];
    assert Blocks([text]) == Block(text) + Blocks([]);
    assert Blocks([image, text]) == Block(image) + Blocks([text]);
    assert userPrompt + (Block(image) + (Block(text) + "")) == userPrompt + Block(image) + Block(text);
  }
}
