/** Named-placeholder expansion: a template is a sequence of literal text,
    `{key}` placeholders read from the match context and the positional
    `{0}` placeholder. The expander itself is not part of the modelled
    source; this is the plain substitution its call sites rely on. */
module Template {
  import opened DocTypes

  datatype Piece = Lit(text: string) | Var(key: string) | Arg

  /** A template, built left to right: `Empty.Text("a").Key("k").Pos()`
      stands for `a{k}{0}`. */
  datatype Template = Empty | Cat(init: Template, last: Piece)
  {
    function Text(s: string): Template { Cat(this, Lit(s)) }
    function Key(k: string): Template { Cat(this, Var(k)) }
    function Pos(): Template { Cat(this, Arg) }
  }

  function PieceValue(p: Piece, ctx: Context, arg: string): string {
    match p
    case Lit(s) => s
    case Var(k) => Lookup(ctx, k)
    case Arg => arg
  }

  function Expand(t: Template, ctx: Context, arg: string): string {
    match t
    case Empty => ""
    case Cat(i, p) => Expand(i, ctx, arg) + PieceValue(p, ctx, arg)
  }
}
