/**
 Splicing a verification block into one section of a markdown document, and reading it from there
 (src/blueprint/verification.ts). What the block's JSON says does not matter here.
 */
module Splicing {
  import opened Text
  import opened Markdown

  const VERIFICATION_BLOCK_HEADER: string := "**Verification:**"
  const FENCE: string := "```webpresso-evidence-v1\n"
  const CLOSE: string := "\n```"

  function BlockText(json: string): string
  {
    VERIFICATION_BLOCK_HEADER + "\n\n" + FENCE + json + CLOSE
  }

  // ---------------------------------------------------------------------
  // The task's section
  // ---------------------------------------------------------------------

  /** Where a task's section lies, from its header to the next boundary. */
  function TaskSection(markdown: string, id: string): (r: Region)
    ensures r.Region? ==> r.start <= r.end <= |markdown|
  {
    var i := FindHeader(markdown, id);
    if i == -1 then NoRegion
    else
      var n := HeaderLen(From(markdown, i), id);
      if n.None? then NoRegion
      else Region(i, i + n.value + SectionRest(markdown[i + n.value..]))
  }

  function MapTaskSection(markdown: string, id: string, transform: string -> string): string
  {
    match TaskSection(markdown, id)
    case NoRegion => markdown
    case Region(i, e) => markdown[..i] + transform(markdown[i..e]) + markdown[e..]
  }

  function ReadTaskSection(markdown: string, id: string): Option<string>
  {
    match TaskSection(markdown, id)
    case NoRegion => None
    case Region(i, e) => Some(markdown[i..e])
  }

  // ---------------------------------------------------------------------
  // Removing, inserting and reading a block
  // ---------------------------------------------------------------------

  // \n*HEADER\n+```webpresso-evidence-v1\n[\s\S]*?\n```\n*
  function BlockLen(x: string): (r: Option<nat>)
    ensures r.Some? ==> 0 < r.value <= |x|
  {
    MarkedLen(x, VERIFICATION_BLOCK_HEADER, FENCE, CLOSE)
  }

  function MarkedLen(x: string, header: string, fence: string, close: string): (r: Option<nat>)
    ensures r.Some? ==> |header| <= r.value <= |x|
  {
    var q := SpanLen(x, Newline);
    if !(header <= x[q..]) then None
    else
      var h := q + |header|;
      var n := SpanLen(x[h..], Newline);
      if n == 0 || !(fence <= x[h + n..]) then None
      else
        var t := h + n + |fence|;
        var u := Find(x, close, t);
        if u == -1 then None else Some(u + |close| + SpanLen(x[u + |close|..], Newline))
  }

  /** `s.replace(VERIFICATION_BLOCK_PATTERN, "\n\n")` */
  function RemoveBlocks(s: string): string
  {
    if s == "" then ""
    else
      match BlockLen(s)
      case Some(n) => "\n\n" + RemoveBlocks(s[n..])
      case None => s[..1] + RemoveBlocks(s[1..])
  }

  function WithoutBlocks(section: string): string
  {
    Collapse(RemoveBlocks(section))
  }

  /** The text a block is inserted behind: the status line, failing that the title. */
  function BlockAnchor(section: string): Anchor
  {
    if StatusAnchor(section).Behind? then StatusAnchor(section) else TitleAnchor(section)
  }

  function InsertBlock(section: string, block: string): string
  {
    match BlockAnchor(section)
    case Nowhere => section + "\n\n" + block + "\n"
    case Behind(_, m) => ReplaceFirst(section, m, m + block + "\n\n")
  }

  function Inserter(block: string): string -> string
  {
    (section: string) => InsertBlock(section, block)
  }

  // HEADER\s*\n+```webpresso-evidence-v1\n([\s\S]*?)\n```: what the group captures
  function CapturedJson(x: string): Option<string>
  {
    if !(VERIFICATION_BLOCK_HEADER <= x) then None
    else
      var h := |VERIFICATION_BLOCK_HEADER|;
      var w := h + SpanLen(x[h..], Space);
      if w == h || x[w - 1] != '\n' || !(FENCE <= x[w..]) then None
      else
        var t := w + |FENCE|;
        var u := Find(x, CLOSE, t);
        if u == -1 then None else Some(x[t..u])
  }

  function JsonAt(s: string): nat -> bool
  {
    (i: nat) => CapturedJson(From(s, i)).Some?
  }

  /** The JSON text of the first block of a section. */
  function FirstJson(section: string): Option<string>
  {
    var i := First(0, |section|, JsonAt(section));
    if i == -1 then None else CapturedJson(From(section, i))
  }
}
