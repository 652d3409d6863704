/** The parsed Dockerfile instructions the list and benchmark actions look at. */
module Dockerfile {
  import opened Wrappers

  /** A parsed image reference: the image name and its tag, if one is given. */
  datatype ImageRef = ImageRef(image: string, tag: Option<string>)

  /** One piece of a shell-form command: text, or a comment between continuation lines. */
  datatype BreakableComponent = StringPart(content: string) | CommentPart(text: string)

  /** `CMD ["a", "b"]` (exec form) or `CMD a b` (shell form). */
  datatype CmdInstruction = Exec(commands: seq<string>) | Shell(components: seq<BreakableComponent>)

  /** The instructions that matter here; all others are `Other`. */
  datatype Instruction = From(imageParsed: ImageRef) | Cmd(cmd: CmdInstruction) | Other

  type Instructions = seq<Instruction>
}
