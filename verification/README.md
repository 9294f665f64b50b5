# Verified model of the KukGit browser core

This project models, in Dafny, the parts of the KukGit web client whose
correctness depends on more than one function, and proves what they promise.

**Markdown** (`public/markdown.js`). `Text`, `Escaping`, `Patterns` and `Links`
hold strings, escaping, the pattern scanners and the link allow-list.
`Rewriting` models the seven inline passes as leftmost, greedy,
non-overlapping replacements (section 22.2 of ECMA-262); `RuleShapes` and
`PassMatches` say what a rule and a pass are without reference to the scanner.
`Placeholders` and `PassDiscipline` carry the invariant on the NUL-delimited
placeholders of code spans through all passes, `TagSafety` and `PassSafety` the
invariant that every `<` begins a tag the renderer wrote, with an allow-listed
target. `Inline` puts the compiler of one line together. `Lines`, `LineShapes`
and `BlockShapes` describe lines and blocks, `Blocks` what a division into
blocks is and that there is only one, and `Renderer` proves the block loop with
its two pending buffers and its nested fence loop against it. `Guarantees` has
the theorems about the whole output. Mail targets are harder than the other
ones, because later passes rewrite the name in front of their `@`: `MailScan`
says by a scan when all of them are whole, `MailMarkup`, `Replacing` and
`MailPasses` follow that scan through a pass, `Literals` says what a text cannot
come to hold, `MailTargets`, `MailTexts`, `MailLines` and `WholeTargets` lead to
a condition on what was typed, `MailExact` to the exact one for lines without
images, and `CutTarget` is a text that fails. `TagScan`, `TagPasses`, `TagLines`
and `WholeTags` say the same of tags as wholes, with their attributes and their
ends: exactly when a pass, a line and a text keep them; `CutAttribute` is a text
that does not. `InlineSteps` tells the compiler of a line step by step, down to
what a code span shows.

**Pull-request diffs** (`public/pull-request-diffs-ui.js`). `SideBySide` pairs
the lines of a hunk into two columns, `DiffLayout` compares what the two layouts
put on the page, `DiffItems` says how often and in which order, `DiffAnchor` follows the range
picked for a comment, `FileList` the file list that grows page by page, and
`DiffPanel` the panel while its answers are under way. The server's side of the
same lines (`src/pull-request-diffs.mjs`, `src/pull-request-diffs-safe.mjs`)
closes the circle: `PatchParser` reads git's text into numbered hunks,
`PatchRoundTrip` says which patches survive that, and `AnchorValidation` checks
the ranges that the browser submits.

**Client protocols.** `Realtime` (socket and reconnects), `AccountScreen` (the
one-time token), `AccessReviews` (two panels that load on every mutation),
`NotificationFloor` (the floor on summary requests) and `AdminStatus` (the
shared status request). Each has a class whose fields are the variables of the
page and whose methods are the functions and handlers; every method is proved
to change them as a step function says, and the theorems are about every run of
steps, with events in any order.

Events from outside are parameters: what the server answers, when a timer
fires or a microtask runs, what the application does to the document, the
clock, the random number, and whether the history API exists.

Some lemmas record behaviour that the code's comments or documentation do not
expect, with the exact condition or a concrete run: `MailPasses.PassKeepsNames`
and `CutTarget.TargetIsCut` (a pass cuts the target of a link that stands
already), `TagPasses.PassKeepsTags` and `CutAttribute.AttributeIsCut` (a pass
writes a tag into the attribute of another), `SideBySide.ShowsAllLines` (a line
of an unknown type vanishes side by side), `DiffLayout.LayoutsAgree` and
`DiffLayout.UnplacedThreadStrays` (when the layouts differ),
`DiffItems.CardsCounted` (a patch without
hunks hides the threads on the file), `PatchRoundTrip.ReadAsPrinted` and
`PatchRoundTrip.CommentLost` (a deleted SQL
comment is taken for a file name, and what follows is misnumbered),
`PatchRoundTrip.HeadingLost` (a hunk is lost to its heading),
`DiffPanel.LateExactly` with `DiffPanel.LatePage` and `DiffPanel.SwappedPatches`
(late answers), `AnchorValidation.RangeAcrossGapRefused` (a range that can be
picked and is refused), `AccountScreen.OpenedTokenSent` with
`AccountScreen.NextTokenDropped` and `AccountScreen.ResetDropsToken` (a second
link loses its token), `AccountScreen.ComesToRest` with
`AccountScreen.WithoutHistoryRedrawsForever` (no history API),
`AccessReviews.RetriedExactly` and `AccessReviews.FailureIsRetried` (a failing
server is asked at every mutation), and `AdminStatus.DrawnOneAtATimeExactly`
with `AdminStatus.WaitingPassesBothDraw` (the drawing flag is set too late).

## Model

| member | source | states |
|---|---|---|
| `Escaping.EscapeHtml` | public/markdown.js:47-51 | The escaped text holds none of `<`, `>`, `"` and the apostrophe. |
| `Escaping.EscapeRoundTrip` | public/markdown.js:47-51 | Reading the five entities back returns the original, for every string. |
| `Escaping.EscapeInjective` | public/markdown.js:47-51 | Two texts that escape alike are equal. |
| `Escaping.EscapedCharacter` | public/markdown.js:47-51 | Each of the five characters is written as its own reference, every other one as itself, wherever it stands. |
| `Links.SafeHrefSound` | public/markdown.js:53-59 | A target that is let through is admitted by the allow-list, a mail address with its name and its `@`, is a stretch of what was typed, holds neither a NUL nor a space, and is let through again unchanged. |
| `Links.SafeHrefExact` | public/markdown.js:53-59 | A target is let through if and only if, without the white space around it, it holds no control character and no space and begins with `http://` or `https://` in any case, with `mailto:`, a name and an `@`, or with `/`, `#`, `./` or `../`; what comes out is that text. |
| `Links.SafeTargetScheme` | public/markdown.js:37-41 | An allow-listed beginning fixes the URL scheme, whatever follows: none, http, https or mailto. `javascript:` and `data:` cannot follow it. |
| `Patterns.SpanAt` | public/markdown.js:84-87 | The scanner for code, strong and del finds a span exactly when the pattern can match at this position, and then the only one. |
| `Patterns.BracketAt` | public/markdown.js:96-104 | Bracketed label and target: found exactly when the pattern can match, with unique bounds. |
| `Patterns.BareUrlAt` | public/markdown.js:111-113 | A pasted URL is found exactly when the pattern can match, and is the longest one; trailing punctuation stays outside. |
| `Patterns.IssueNumberAt` | public/markdown.js:115-116 | One to nine digits with a word boundary: found exactly when the pattern can match. |
| `RuleShapes.StrongExact` | public/markdown.js:122 | The strong rule matches at exactly the positions where two stars, a body without star or line feed and two stars stand, and writes the strong element around the body. |
| `RuleShapes.EmphasisExact` | public/markdown.js:123 | The same for single stars, with the guards on both sides: not behind or before a star or a word character. |
| `RuleShapes.DeletedExact` | public/markdown.js:124 | The same for double tildes and the del element. |
| `RuleShapes.LinkExact` | public/markdown.js:104-109 | A link rule matches every bracket pair; an allowed target gives the anchor, with the target as its own label if there is none, a refused one is kept as typed. |
| `RuleShapes.AnchorExact` | public/markdown.js:61-72 | A link whose target begins with `http://` or `https://`, in any case, opens a new tab and carries `noopener noreferrer nofollow`; any other link has its target alone. |
| `RuleShapes.ImageExact` | public/markdown.js:96-102 | Only a path of this host that is not protocol-relative gives an element that loads it, with code spans as plain text in its attributes; any other allowed target gives a link and a note; a refused one is kept. |
| `RuleShapes.ImageElementExact` | public/markdown.js:99 | The element of a local image: its address, its alternative text, loaded lazily. |
| `RuleShapes.NoteExact` | public/markdown.js:100-102 | The note behind the link of an image that is not loaded. |
| `RuleShapes.UrlExact` | public/markdown.js:111-113 | Matches exactly behind the start, a space or an opening parenthesis; the longest URL becomes its own caption. |
| `RuleShapes.PastedUrlWritten` | public/markdown.js:61-113 | Every pasted URL, with or without the s, is replaced by a link to itself that carries both attributes. |
| `RuleShapes.IssueExact` | public/markdown.js:115-120 | Matches exactly such numbers, asks for the decimal value, checks the answer like any other link, and keeps the text if it is refused. |
| `Text.ValueOfDecimal` | public/markdown.js:84-92 | The number written into a placeholder reads back as itself. |
| `Rewriting.StripCodeElement` | public/markdown.js:89-92 | In an attribute a code span goes back as the characters the author typed. |
| `InlineSteps.SpanInAttribute` | public/markdown.js:89-99 | In the address or the alternative text of an image every code span stands as the characters typed between its backticks, and the other text as it is. |
| `PassMatches.RewriteIsReplacement` | public/markdown.js:96-124 | A pass equals the replacement of the leftmost matches that do not overlap, each at or behind the end of the one before, with everything else kept: any such list of matches gives this text. |
| `PassMatches.MatchesExist` | public/markdown.js:96-124 | Every text has such a list of matches, for every rule. |
| `PassMatches.RefusedLinksKept` | public/markdown.js:104-109 | A text whose bracketed targets are all refused leaves the link pass as it went in. |
| `PassMatches.RefusedImagesKept` | public/markdown.js:96-98 | The same for the image pass. |
| `Inline.LiftDisciplined` | public/markdown.js:82-87 | After lifting, NUL occurs only in complete placeholders, whose indices count up from the first span to the last. |
| `Inline.LiftRoundTrip` | public/markdown.js:82-87 | With the spans put back in backticks the lifted text is the line again. |
| `InlineSteps.SpanLifted` | public/markdown.js:82-87 | The first code span of a line gives way to its number between two NULs, its code element is kept, and the text behind it is lifted in turn. |
| `InlineSteps.NothingLifted` | public/markdown.js:82-87 | A text without a code span is left as it is. |
| `Placeholders.DisciplinedSlice` | public/markdown.js:84-126 | No cut beside a character foreign to placeholders goes through a placeholder: the part between two such cuts is disciplined. |
| `PassDiscipline.PassKeepsDiscipline` | public/markdown.js:96-124 | Each of the seven passes keeps placeholders whole and invents no index; all but the image and the pasted-URL pass keep their sequence. |
| `Inline.CompiledDisciplined` | public/markdown.js:96-126 | After all passes every placeholder names a lifted span, so restoring is total. |
| `Inline.RenderInline` | public/markdown.js:82-127 | The inline compiler, pass by pass over one variable, returns what the composed specification says. |
| `InlineSteps.PassesInOrder` | public/markdown.js:94-127 | A line is its text without code spans, with the leftmost matches replaced for images, links, pasted URLs, issue numbers if they can be linked, strong, emphasis and deleted text, in this order, and the spans put back. |
| `InlineSteps.CodeShownLiterally` | public/markdown.js:75-87 | In a text without marks whatever stands between two backticks comes out between the code tags character for character, whatever links, stars or images it spells. |
| `InlineSteps.PlainLineShown` | public/markdown.js:82-127 | A line without a mark is its escaped text, and reads back as what was typed. |
| `Inline.CodeSpansRestoredInOrder` | public/markdown.js:84-126 | Where the image and pasted-URL passes match nothing, the output is the compiled text with every code span woven in exactly once, in order, with its content unchanged. |
| `Literals.PlainLines` | public/markdown.js:96-113 | Those two passes match nothing in any line that holds no `![`, no `http://` and no `https://`, whatever its links and code spans are. |
| `TagSafety.TagsSplit` | public/markdown.js:96-124 | A text of own tags can be cut at any place no tag reaches across, and its parts are again of own tags. |
| `PassSafety.PassKeepsOwnTags` | public/markdown.js:94-124 | Invariant of each pass: every `<` begins one of the renderer's own tags, links carry an allow-listed target and images a local one, although the pass rewrites text inside earlier markup. |
| `Inline.FillOwnTags` | public/markdown.js:126 | Restoring code spans puts whole elements between tags and never inside one. |
| `Inline.InlineSafe` | public/markdown.js:82-127 | For every escaped line: own tags only, allow-listed targets, no NUL left. |
| `Guarantees.RenderedIsSafe` | public/markdown.js:144-224 | For every input text, if issue links hold no `<`: each `<` of the output begins one of the fixed tags or a link or image with an allowed target, and the output holds no NUL. |
| `Guarantees.TargetsAllowed` | public/markdown.js:37-45 | For every text: in the final output every link opening is followed by an allow-listed prefix, of a mail address as far as its colon, so its scheme is none, http, https or mailto, and every image opening by `./`, `../` or a slash without a second one. |
| `MailScan.ScanDecides` | public/markdown.js:37-41 | A scan with one state decides whether every link to a mail address has a name and an `@`: it does so exactly when it ends outside of a name. |
| `MailScan.NameStandsIn` | public/markdown.js:37-41 | In such a text the scan is in its name state at exactly the positions that lie in the name of a mail address. |
| `MailPasses.EmphasisRun` | public/markdown.js:122-124 | Strong, emphasis and strike-through write tags that no scan can tell from the marks they replace, from any state. |
| `MailPasses.PassKeepsNames` | public/markdown.js:104-124 | A pass over a text in which all mail addresses are whole keeps them all whole if and only if no link, pasted URL or issue number it writes begins between the colon and the `@` of one, and no address is cut by the end of a label without an `@` behind that link before the next. |
| `MailPasses.ImagesRun` | public/markdown.js:96-102 | What the image pass writes over an escaped line is whole. |
| `MailTargets.LineNamed` | public/markdown.js:82-127 | With its code spans lifted out, a line is compiled with all mail addresses whole if and only if none of its three passes cuts one; the restored line is whole if so, and only if so as long as no address that a label has cut runs into a code span. |
| `MailExact.LineCutExactly` | public/markdown.js:104-120 | A line without images is compiled with all mail addresses whole if and only if no link is written for one whose name holds a parenthesis with, directly behind it, a URL or an issue number whose link is let through. |
| `MailLines.LineKept` | public/markdown.js:82-127 | A condition on what was typed that also covers lines with images: no image and no parenthesis in a mail name, or no mail address, backticks left aside. |
| `WholeTargets.TargetsWhole` | public/markdown.js:37-59 | For every text of such lines, whatever follows a link opening in the final output is admitted by the allow-list of `safeHref` as a whole. |
| `CutTarget.TargetIsCut` | public/markdown.js:111-120 | The text `[x](mailto:(#1@b)` comes out, when issues have links, with a link inside the target of the link, and what is left of that target is not admitted. |
| `TagScan.ScanDecides` | public/markdown.js:61-71 | A scan that keeps what it has read of a tag decides whether every `<` begins a tag written to its end as the renderer writes it, with an admitted target and no other attributes, and whether every quote stands in such a tag. |
| `TagPasses.PassKeepsTags` | public/markdown.js:104-124 | A pass over such a text gives such a text if and only if no match it replaces begins or ends inside a tag, and no link has a tag in its target. |
| `TagLines.ImagesScan` | public/markdown.js:94-102 | What the image pass writes over an escaped line is such a text. |
| `TagLines.FillScan` | public/markdown.js:126 | Restoring code spans keeps the tags whole if and only if every placeholder stands outside of them. |
| `TagLines.LineKeepsTags` | public/markdown.js:82-127 | A line is compiled with every tag whole if and only if none of its passes cuts one and no code span comes to stand in one. |
| `WholeTags.RenderedTags` | public/markdown.js:138-224 | For every text and its blocks, if issue links hold neither a quote nor `<`: every tag of the output is whole if and only if every heading, quote, item and prose line is compiled so. Fences never break one. |
| `WholeTags.LinksWhole` | public/markdown.js:53-72 | In such an output each link opening is a whole tag with an admitted target: it carries `target` and `rel` if the target begins with `http://` or `https://` in any case, and nothing but the target if not. |
| `CutAttribute.AttributeIsCut` | public/markdown.js:96-113 | The text `![ http://a.bc](/x)` comes out with a link inside the alternative text of the image, so that the tag of the image is none that the renderer writes. |
| `Lines.Strip` | public/markdown.js:145-149 | The stripped text holds no control character other than tab, line feed and carriage return. |
| `Lines.StripKeeps` | public/markdown.js:145-149 | U+0000 to U+0008, U+000B, U+000C and U+000E to U+001F are lost and every other character is kept, once and in its place among what is kept of the texts before and behind it. |
| `Lines.Normalize` | public/markdown.js:150 | No carriage return is left, and no NUL is introduced. |
| `Lines.NormalizeKeeps` | public/markdown.js:150 | Every character that is no part of a line break is kept, once and in its place. |
| `Lines.NormalizeBreak` | public/markdown.js:150 | A whole line break of any of the three kinds becomes one line feed in its place. |
| `Lines.SplitLinesRoundTrip` | public/markdown.js:150 | Splitting loses nothing: the lines hold no line feed and join back to the text. |
| `Lines.SourceLines` | public/markdown.js:145-150 | No line holds a NUL, so no input can address a placeholder. |
| `Lines.SourceText` | public/markdown.js:36-150 | The lines of a text of at most 200 000 characters join to the whole stripped and normalized text; those of a longer one are the lines of its first 200 000 characters. |
| `Guarantees.LongTextCut` | public/markdown.js:149 | A longer text is rendered like its first 200 000 characters. |
| `LineShapes.FenceExact` | public/markdown.js:171 | The fence pattern accepts exactly the lines of its shape and captures the language. |
| `LineShapes.FenceCloseExact` | public/markdown.js:171-179 | A line closes a fence if and only if it would open one without a language. |
| `LineShapes.HeadingExact` | public/markdown.js:190 | The heading pattern accepts exactly its shape; level and text are determined by the line. |
| `LineShapes.RuleExact` | public/markdown.js:198 | The rule pattern accepts exactly its shape. |
| `LineShapes.QuoteExact` | public/markdown.js:200 | The quote pattern accepts exactly its shape and takes off at most one space. |
| `LineShapes.BulletExact` | public/markdown.js:207 | The bullet pattern accepts exactly its shape and captures the text behind the marker. |
| `LineShapes.NumberedExact` | public/markdown.js:208 | The number pattern accepts exactly its shape and captures the text behind the marker. |
| `LineShapes.TaskExact` | public/markdown.js:129-136 | The checkbox pattern accepts exactly its shape; x and X mean checked. |
| `BlockShapes.OneShape` | public/markdown.js:171-208 | No line has two of the seven shapes, so the order in which they are tried does not matter. |
| `BlockShapes.KindIsShape` | public/markdown.js:168-220 | What the loop takes a line for is its shape; a line of none is prose. |
| `BlockShapes.HeadingBlock` | public/markdown.js:190-196 | A heading line becomes the heading element of its level around its trimmed text, and the rest is rendered on its own. |
| `BlockShapes.QuoteBlock` | public/markdown.js:200-205 | A quote line becomes one blockquote. |
| `BlockShapes.RuleOrBlankBlock` | public/markdown.js:188-198 | A rule becomes `<hr>`, a blank line nothing. |
| `BlockShapes.FenceBlock` | public/markdown.js:171-186 | A fence runs to its first closing line or to the end of the text and becomes one `pre` with the class of its language, if it has one, around the escaped lines between. |
| `BlockShapes.ItemText` | public/markdown.js:207-214 | The text of an item is what stands behind its marker. |
| `BlockShapes.ListBlock` | public/markdown.js:207-216 | A longest run of items of one kind is one list, closed before an item of the other kind. |
| `BlockShapes.ListText` | public/markdown.js:161-165 | A list is its tag around its items, each in its own element, in order. |
| `BlockShapes.ListElements` | public/markdown.js:129-216 | A longest run of items is one `ul` or `ol` with an `li` for each line: for a task the disabled box, checked for x and X and not for a space, and the compiled text behind it; for any other item the compiled text behind its marker. |
| `BlockShapes.ParagraphBlock` | public/markdown.js:218-222 | A longest run of prose lines is one paragraph. |
| `BlockShapes.ParagraphText` | public/markdown.js:156-160 | A paragraph is its compiled lines, in order, with a break between two. |
| `Blocks.ChunkLengthUnique` | public/markdown.js:168-220 | A block at the front that cannot take the next line is the block that is taken. |
| `Blocks.ChunkingUnique` | public/markdown.js:168-223 | The division of the lines into maximal blocks exists and is the only one, in both directions; lists never mix tags and a fence ends only at its close or the end. |
| `Blocks.ChunksKeepLines` | public/markdown.js:168-223 | The blocks joined are the lines: each is consumed exactly once, in order. |
| `Renderer.FlushParagraph` | public/markdown.js:156-160 | Emits the pending paragraph, if any, and empties the buffer. |
| `Renderer.FlushList` | public/markdown.js:161-165 | Emits the pending list, if any, and empties the buffer. |
| `Renderer.ReadFence` | public/markdown.js:174-182 | The nested loop stops at the first close or the end and returns exactly the lines between. |
| `Renderer.InvFacts` | public/markdown.js:152-166 | At every loop head at most one of the two buffers is pending, so flushing cannot reorder output. |
| `Renderer.FlushKeeps` | public/markdown.js:156-166 | Flushing keeps the loop invariant: what was emitted is the markup of exactly the lines before. |
| `Renderer.RenderMarkdown` | public/markdown.js:144-224 | The loop with its two buffers and the nested fence loop returns the specification for every text and terminates. |
| `Guarantees.HtmlOfChunks` | public/markdown.js:144-224 | The output is the markup of the blocks, one element each, in order. |
| `Guarantees.RenderedByBlocks` | public/markdown.js:144-224 | Whoever divides the lines into maximal blocks in any way gets this output. |
| `Guarantees.FencedBodyLiteral` | public/markdown.js:171-186 | The body of a fence, closed or not, reads back as exactly the enclosed lines joined by line feeds. |
| `SideBySide.PairSideRows` | public/pull-request-diffs-ui.js:159-173 | The nested loops return the specification of the rows and terminate for every sequence of lines. |
| `SideBySide.RowsKeepColumns` | public/pull-request-diffs-ui.js:159-173 | The non-empty left cells are exactly the delete and context lines in order, the right ones the add and context lines in order. |
| `SideBySide.RowsCut` | public/pull-request-diffs-ui.js:159-173 | Rows before and after a point inside no block of deletes and adds are paired independently. |
| `SideBySide.OwnRow` | public/pull-request-diffs-ui.js:163-164 | A meta or context line is one row between the rows of what precedes and follows it. |
| `SideBySide.BlockPaired` | public/pull-request-diffs-ui.js:165-170 | A block of d deletes and a adds takes max(d, a) rows, and row r pairs the r-th of each. |
| `SideBySide.ShowsAllLines` | public/pull-request-diffs-ui.js:162-170 | Every line of a hunk is shown side by side if and only if all have one of the four known types. |
| `DiffLayout.HunkConserved` | public/pull-request-diffs-ui.js:123-188 | The unified layout of a hunk holds, counted with multiplicity, what the side-by-side layout holds and the belongings of strays: numbers on a side the line has no cell in. |
| `DiffLayout.LayoutsConserve` | public/pull-request-diffs-ui.js:190-195 | The same for a whole patch. |
| `DiffLayout.LayoutsAgree` | public/pull-request-diffs-ui.js:139-195 | Both layouts hold the same comment buttons, thread cards and forms, each as often, if and only if no stray number gets a button, a thread or the form. |
| `DiffLayout.LayoutsAgreeOnGit` | public/pull-request-diffs-ui.js:139-195 | They agree on every patch in which adds and deletes carry no opposite number, when threads carry positive numbers. |
| `DiffLayout.UnplacedThreadStrays` | public/pull-request-diffs-ui.js:123-125 | A thread without a line number counts as line zero, like the missing number of an added line, and makes the layouts differ. |
| `DiffLayout.OneForm` | public/pull-request-diffs-ui.js:151-188 | With distinct numbers per side, and whatever the threads are, either layout shows the review form once if the anchored line is in its hunk, and never otherwise. |
| `DiffItems.CardsCounted` | public/pull-request-diffs-ui.js:123-195 | With threads on numbered lines, either layout of a git patch shows the card of a thread on the file as often as the page has that thread, or never if the patch has no hunk, and that of a thread on a line as often times the number of lines that carry its number on its side. |
| `DiffItems.OneCard` | public/pull-request-diffs-ui.js:123-195 | A thread that the page has once, on the file or on one line, has exactly one card in either layout of a patch with hunks. |
| `DiffItems.ButtonsCounted` | public/pull-request-diffs-ui.js:131-142 | With comments allowed, either layout shows the button of a number once for each line of its hunk that carries the number on its side, marked exactly if the anchor covers it, and no other button. |
| `DiffItems.OneButton` | public/pull-request-diffs-ui.js:131-142 | A number that one line of the hunk carries has exactly one button on that side, in one state. |
| `DiffItems.EarlierLinesFirst` | public/pull-request-diffs-ui.js:150-188 | What belongs to earlier lines of a hunk comes first in the unified layout, and side by side wherever no block of deletes and adds is cut. |
| `DiffItems.EarlierHunksFirst` | public/pull-request-diffs-ui.js:190-195 | The threads on the file come first and then the hunks in their order, in either layout. |
| `DiffItems.ThreadsInOrder` | public/pull-request-diffs-ui.js:123-129 | Threads on the file, and threads on one line and side, keep the order in which the page has them. |
| `DiffItems.LineOrdered` | public/pull-request-diffs-ui.js:150-157 | Behind a line stand the threads of its old number, those of its new one, and the form, in this order. |
| `DiffItems.RowOrdered` | public/pull-request-diffs-ui.js:182-188 | The same for a row of two cells. |
| `DiffItems.CardShown` | public/pull-request-diffs-ui.js:123-195 | Either layout shows exactly the threads on the file, which a patch without hunks hides, and those whose number some line of the patch carries on their side. |
| `DiffItems.ButtonShown` | public/pull-request-diffs-ui.js:139-142 | Either layout offers a comment on exactly the numbered sides of the lines of the patch, if comments are allowed, marked as the anchor says. |
| `DiffAnchor.AnchorState.SetAnchor` | public/pull-request-diffs-ui.js:247-253 | A click, with or without shift, changes the anchor as the step function says. |
| `DiffAnchor.AnchorState.ResetAnchor` | public/pull-request-diffs-ui.js:212-214 | Cancelling leaves no anchor. |
| `DiffAnchor.AnchorOfRun` | public/pull-request-diffs-ui.js:247-253 | After any clicks and resets the anchor runs from the line of the last click that did not extend a range to the line of the last click, within one hunk and one side. |
| `DiffAnchor.PickedRangeStarts` | public/pull-request-diffs-ui.js:212-253 | A range is picked if and only if such a click exists. |
| `DiffAnchor.HighlightedIsSubmitted` | public/pull-request-diffs-ui.js:131-142 | After any clicks, in either layout, the highlighted buttons are exactly those of the lines that a submit would send. |
| `DiffAnchor.StartSentForRanges` | public/pull-request-diffs-ui.js:266-279 | The start line is null if and only if the range covers one line, and both ends of the range are covered. |
| `FileList.ChangedFiles.LoadMore` | public/pull-request-diffs-ui.js:308-313 | The page's files that are not listed are appended, and the offset is the page's. |
| `FileList.FreshDistinct` | public/pull-request-diffs-ui.js:311 | What a page with distinct paths adds has distinct paths. |
| `FileList.FreshInOrder` | public/pull-request-diffs-ui.js:311 | A page adds each file whose path is not listed once, in the order of the page. |
| `FileList.MergeKeeps` | public/pull-request-diffs-ui.js:308-313 | Listed files keep their place and data, and the paths are the union of both. |
| `FileList.MergeDistinct` | public/pull-request-diffs-ui.js:308-313 | Paths stay distinct if and only if they were and the added ones are. |
| `FileList.RepeatedPath` | public/pull-request-diffs-ui.js:311 | A page that repeats a new path puts it on the list twice. |
| `FileList.PagesListedOnce` | public/pull-request-diffs-ui.js:308-313 | However pages with distinct paths overlap, no path is listed twice and none is missing. |
| `DiffPanel.Panel.RenderDiffPanel` | public/pull-request-diffs-ui.js:224-245 | Asks for the summary if it is forced or there is no payload, for the selected patch otherwise. |
| `DiffPanel.Panel.ChoosePull` | public/pull-request-diffs-ui.js:293-299 | Choosing a pull request forgets selection and payload and asks for its summary. |
| `DiffPanel.Panel.ClickFile` | public/pull-request-diffs-ui.js:303-307 | Choosing a file selects it and asks for its patch. |
| `DiffPanel.Panel.OnAnswer` | public/pull-request-diffs-ui.js:228-313 | Behind the awaits: what a summary, a page and a patch change, whatever was chosen in the meantime. |
| `DiffPanel.AsksExactly` | public/pull-request-diffs-ui.js:224-313 | What a mount, a choice, a click and a failure leave of the selection and ask the server for. |
| `DiffPanel.SummaryArrives` | public/pull-request-diffs-ui.js:228-245 | A summary replaces the list, keeps a selection that is listed and takes the first file otherwise, and asks for its patch; without files the panel is empty. |
| `DiffPanel.MoreArrives` | public/pull-request-diffs-ui.js:308-313 | A page adds exactly its paths that are not listed, under the pull request it was asked for, and the selected patch is asked for again. |
| `DiffPanel.PatchArrives` | public/pull-request-diffs-ui.js:238-245 | A patch is shown as that of the file it was asked for. |
| `DiffPanel.AtRest` | public/pull-request-diffs-ui.js:224-313 | In every run in which nothing fails and every answer was for what was selected when it came: with all answered the list is of the selected pull request and the patch on the page of the selected file. |
| `DiffPanel.LateExactly` | public/pull-request-diffs-ui.js:224-313 | A summary puts files of another pull request on the list if and only if it is late and not empty, a page if and only if it is late and brings a new path, and a patch is shown for another file if and only if it is late. |
| `DiffPanel.LatePage` | public/pull-request-diffs-ui.js:308-313 | A page asked for one pull request is appended to the list of the next. |
| `DiffPanel.SwappedPatches` | public/pull-request-diffs-ui.js:303-307 | Two files opened in a row show the first one if its answer comes last, and a comment goes to the path of the other. |
| `PatchParser.ParseUnifiedPatch` | src/pull-request-diffs.mjs:215-254 | The parsing loop returns the fold of its step over the lines, for every text. |
| `PatchParser.NextLine` | src/pull-request-diffs.mjs:215-254 | What one more line does to the hunks of any text: a header begins one, a line about a file is passed over, and every other line goes to the last one as metadata, addition, deletion or context with the numbers that come next. |
| `PatchParser.ParsedCounted` | src/pull-request-diffs.mjs:215-254 | Whatever the text, in every hunk that is read the numbers of each side count up one by one from the header, adds and deletes carry no opposite number, and every type is known. |
| `PatchParser.SanitizeHunk` | src/pull-request-diffs-safe.mjs:19-33 | The loop with its two counters returns the specification of the cut. |
| `PatchParser.SanitizedKeeps` | src/pull-request-diffs-safe.mjs:19-33 | What is kept is a subsequence of the lines of the hunk, metadata included, no more than the header declares on either side, with numbers still increasing. |
| `PatchParser.SanitizedWhole` | src/pull-request-diffs-safe.mjs:19-33 | A hunk with no more lines than declared is left as it is. |
| `PatchParser.PhantomsCut` | src/pull-request-diffs-safe.mjs:19-33 | Numbered lines behind the declared ones, such as the one a final line feed leaves, are cut off and nothing else is. |
| `PatchParser.ParsedPatchesAgree` | src/pull-request-diffs.mjs:215-254 | End to end: for every patch text the hunks sent to the browser make both layouts hold the same items, when threads carry positive numbers. |
| `PatchParser.ParsedPatchForm` | src/pull-request-diffs.mjs:215-254 | For every patch text, layout and threads, the hunks sent to the browser show the review form once if the anchored line is there, and never otherwise. |
| `PatchRoundTrip.PrintedLine` | src/pull-request-diffs.mjs:233-251 | A printed line is skipped exactly when it looks like a file name, and is otherwise read as itself. |
| `PatchRoundTrip.HeaderRoundTrip` | src/pull-request-diffs.mjs:203-213 | A printed hunk header, with a count of one left out and any text behind it, reads back as its four numbers if no line terminator stands in that text, and is no header otherwise. |
| `PatchRoundTrip.HeaderExact` | src/pull-request-diffs.mjs:203-213 | A line is a header if and only if it has this shape to its end, and its four numbers are the digits that stand there, a missing count being one. |
| `PatchRoundTrip.PatchChanges` | src/pull-request-diffs.mjs:215-254 | Reading a printed patch, with all that git says about files between its hunks, finds one hunk for each header that is read, and exactly the changes behind the first of them that do not look like a file name. |
| `PatchRoundTrip.ReadAsPrinted` | src/pull-request-diffs.mjs:215-254 | A patch as git prints it, with the lines about its files and the headings of its hunks, reaches the browser hunk for hunk and line for line if and only if no deleted line begins with two dashes and a space, no added line with two plus signs and a space, and no heading holds a line terminator. |
| `PatchRoundTrip.HeadingLost` | src/pull-request-diffs.mjs:203-233 | A patch of which nothing looks like a file name is read as no hunk at all, because its heading holds U+2028. |
| `PatchRoundTrip.CommentLost` | src/pull-request-diffs.mjs:233-247 | Of a patch text that deletes a SQL comment and the line behind it the browser is sent only the second line, with the number of the first. |
| `AnchorValidation.ValidateAnchor` | src/pull-request-diffs-safe.mjs:51-95 | Each refusal, and each file comment that is accepted, is told by the fields of the request and the kind of the patch; a range that passes them is accepted if and only if some hunk accepts it, and the start is dropped for one line. |
| `AnchorValidation.SubmittedReachesSearch` | src/pull-request-diffs-safe.mjs:51-74 | What the browser submits for a range picked in a text file that is not too large passes all those checks, so the search alone decides. |
| `AnchorValidation.AcceptedExactly` | src/pull-request-diffs-safe.mjs:75-85 | A hunk with increasing numbers accepts a range if and only if it holds every line of it. |
| `AnchorValidation.PickedRangeChecked` | src/pull-request-diffs-safe.mjs:51-86 | For every patch text the browser is sent, every other or equal text the server searches, and every range picked by clicks: the server accepts it if and only if some hunk there holds every line of it; for equal texts the hunk it was picked in decides. |
| `AnchorValidation.PickedRangeAccepted` | src/pull-request-diffs-safe.mjs:51-86 | If the hunks hold no more lines than declared, and are those the server searches, every such range is accepted. |
| `AnchorValidation.RangeAcrossGapRefused` | src/pull-request-diffs-safe.mjs:19-33 | A patch text whose header declares too few old lines is sent to the browser with a gap among the new ones, and a range across it is refused. |
| `Realtime.Client.ScheduleReconnect` | public/realtime-notifications-ui.js:113-119 | Clears the pending reconnect, and schedules one if the generation is current, the shell is there and the browser is online. |
| `Realtime.Client.CloseCurrent` | public/realtime-notifications-ui.js:121-128 | Starts a new generation, clears the reconnect and closes the socket. |
| `Realtime.Client.ConnectSocket` | public/realtime-notifications-ui.js:130-138 | Connects unless a guard or a live socket forbids it; a constructor that throws schedules a reconnect. |
| `Realtime.Client.Handle` | public/realtime-notifications-ui.js:139-176 | Every event changes the page's variables as its step says: a connection that is established, the open event behind it with its stale branch, errors, closes and timers. |
| `Realtime.Client.OnOpenEvent` | public/realtime-notifications-ui.js:139-147 | The open handler closes a socket of a past generation, and otherwise resets the backoff. |
| `Realtime.Client.OnCloseEvent` | public/realtime-notifications-ui.js:149-156 | The close handler forgets the socket if it is the current one and schedules a reconnect under the guards. |
| `Realtime.RunKeeps` | public/realtime-notifications-ui.js:113-177 | The invariant on sockets, timers and backoff holds in every interleaving of all events. |
| `Realtime.OneLiveSocket` | public/realtime-notifications-ui.js:130-158 | In every run, between events, at most one socket is connecting or open; it is the current one, its generation is current, and an open event of it would not be stale. |
| `Realtime.StaleOpenExactly` | public/realtime-notifications-ui.js:139-143 | In every run an open event takes the stale branch if and only if its socket was told to close after its connection was established; the branch changes nothing else. |
| `Realtime.StaleOpenOccurs` | public/realtime-notifications-ui.js:121-143 | Leaving the page between the two leads there. |
| `Realtime.OneTimer` | public/realtime-notifications-ui.js:113-128 | In every run at most one reconnect is pending: the stored one, of the current generation, with a delay from its backoff to less than a second more. |
| `Realtime.BackoffDoubles` | public/realtime-notifications-ui.js:116-172 | After k reconnects scheduled since the last reset the backoff is min(30000, 1000 * 2^k). |
| `Realtime.OpensExactly` | public/realtime-notifications-ui.js:130-177 | In every run an event opens a socket if and only if it is a mount, the network coming back or a pending reconnect, the application is there and online, no socket is live, and the constructor does not throw; it belongs to the current generation and becomes the current one. |
| `Realtime.SchedulesExactly` | public/realtime-notifications-ui.js:113-172 | In every run a reconnect is scheduled if and only if a socket of the current generation closes, or one is asked for and the constructor throws, with the application there and online; it waits for the backoff and a jitter, the backoff doubles up to 30 seconds, and it is one second again when the network is back or a socket opens. All other events clear the pending one or leave it. |
| `Realtime.SocketsFollow` | public/realtime-notifications-ui.js:121-158 | In every run leaving starts a new generation and closes every live socket, an error closes its socket, and a close event forgets it if it was the current one. |
| `Realtime.JitterBounds` | public/realtime-notifications-ui.js:116 | The jitter is the random share of a third of the backoff, or of a second if that is less, in whole milliseconds; it is at least 0 and below 1000. |
| `Realtime.LeavingIsFinal` | public/realtime-notifications-ui.js:121-158 | Once the page is left, no late open, error, close or timer event opens a socket or schedules a reconnect. |
| `AccountScreen.Screens.RenderVerifyEmail` | public/account-screens-ui.js:350-368 | Starts at most one attempt for a token, shows the waiting screen, or restores the outcome. |
| `AccountScreen.Screens.MountAccountScreen` | public/account-screens-ui.js:539-569 | Draws the screen of the route unless its key is on the page. |
| `AccountScreen.Screens.OnResume` | public/account-screens-ui.js:368-382 | After the await: nothing if the route was left; otherwise records the outcome, forgets the token and shows the result. |
| `AccountScreen.Screens.ForgetToken` | public/account-screens-ui.js:87-91 | Claims the address without the token and moves to it when the history API is there. |
| `AccountScreen.PostedOnce` | public/account-screens-ui.js:323-368 | Over every run of mounts, redraws, navigations and late answers each token is sent at most once. |
| `AccountScreen.SendsExactly` | public/account-screens-ui.js:323-368 | In every run a token is sent by exactly the mount that finds it in the address unsent, and the first answer for it is kept. |
| `AccountScreen.PageExactly` | public/account-screens-ui.js:333-382 | The page changes exactly when the application writes it, a mount finds a screen that is not drawn, or an answer is shown, and what it shows then is told by the address, the token and the outcome. |
| `AccountScreen.AddressExactly` | public/account-screens-ui.js:72-91 | Which events change the address, the key of what is drawn and the remembered outcome, and to what. |
| `AccountScreen.ScheduledExactly` | public/account-screens-ui.js:539-580 | A mount is scheduled by a new address and by everything that writes to the page, and by nothing else. |
| `AccountScreen.ShownWasAnswered` | public/account-screens-ui.js:323-382 | Every result on the page is the server's answer for a token that was sent, and that answer is never revised. |
| `AccountScreen.OutcomeRestored` | public/account-screens-ui.js:333-360 | In every reachable state with an outcome, mounting the route without a token sends nothing and keeps the outcome, and shows it if and only if the page does not hold, under the same key, the answer to another form. |
| `AccountScreen.FormAnswerCoversOutcome` | public/account-screens-ui.js:333-360 | A run from the start of the page that ends in that exception. |
| `AccountScreen.LeavingIsFinal` | public/account-screens-ui.js:369-374 | Results that arrive after the route was left change neither the page, the address, the key, the outcome nor the requests. |
| `AccountScreen.SpentTokenIsGone` | public/account-screens-ui.js:72-91 | Once the token has left the address nothing is sent until somebody navigates. |
| `AccountScreen.TokenTaken` | public/account-screens-ui.js:72-91 | In every state, and for every event but a navigation, the token in the address stays until exactly a result on the verification screen or an answer to a password reset takes it, and then only with a history API. |
| `AccountScreen.OpenedTokenSent` | public/account-screens-ui.js:323-382 | From every reachable state with an unsent token in the address, whatever follows until the next navigation, that token is sent if and only if its screen is drawn before such an event. |
| `AccountScreen.NextTokenDropped` | public/account-screens-ui.js:368-376 | A run in which it is not: the check after the await reads the name of the route only, and the result for the first link takes the token of one opened while it was awaited. |
| `AccountScreen.ResetDropsToken` | public/account-screens-ui.js:440-460 | Another: a late answer to a password reset forgets the token of its screen without a look at the route; no later event but a navigation sends the one that was there. |
| `AccountScreen.ComesToRest` | public/account-screens-ui.js:361-382 | After a result is shown and the mount it schedules has run, the result is there and nothing is scheduled if and only if the history API exists or the address held no token. |
| `AccountScreen.WithoutHistoryRedrawsForever` | public/account-screens-ui.js:361-382 | From the start of the page without that API, after any number of rounds, the finished screen is about to be redrawn, although the token was sent only once. |
| `AccessReviews.AccessPanel.LoadPanel` | public/external-access-reviews-ui.js:292-305 | The guards of a load, in their order, and its start. |
| `AccessReviews.AccessPanel.OnReply` | public/external-access-reviews-ui.js:305-320 | What each reply changes, and whether it changes the document. |
| `AccessReviews.Page.OnHashChange` | public/external-access-reviews-ui.js:403-409 | Navigation forgets both keys and both answered sets and queues a pass. |
| `AccessReviews.Page.OnMicrotask` | public/external-access-reviews-ui.js:390-399 | A queued pass tries both panels, unforced. |
| `AccessReviews.OneInFlight` | public/external-access-reviews-ui.js:193-223 | In every run at most one load per panel is in flight, and busy says so. |
| `AccessReviews.LoadsExactly` | public/external-access-reviews-ui.js:193-305 | In every run a load of a panel starts if and only if an edit forces it, or a queued pass finds the panel neither in place nor refused, with its place on the page and none in flight; it is for the place and address of that moment and leaves when it is answered. |
| `AccessReviews.RemembersExactly` | public/external-access-reviews-ui.js:305-409 | What a reply and a navigation leave of the answered keys, the key in place and the panel in the document. |
| `AccessReviews.QueuedExactly` | public/external-access-reviews-ui.js:380-411 | A pass is queued by a navigation, by every change of the document, a panel that arrives or is replaced included, and by nothing else. |
| `AccessReviews.StepCredit` | public/external-access-reviews-ui.js:193-321 | Loads plus the one still to be expected grow only with disturbances of that panel. |
| `AccessReviews.LoadsBounded` | public/external-access-reviews-ui.js:182-321 | In every run a panel starts at most one load more than it was disturbed (navigation, edit, changed surroundings, failed load), however often the page changes. |
| `AccessReviews.RefusedStays` | public/external-access-reviews-ui.js:297-316 | For either panel, from every state: once a load is refused, its key stays answered and no event of any run without a navigation event and without an edit of that panel starts a load for it, however the page changes. |
| `AccessReviews.InPlaceStays` | public/external-access-reviews-ui.js:292-302 | In every run a panel is loaded, other than by an edit, only where it is not in place for the current organization and address. |
| `AccessReviews.SettledStays` | public/external-access-reviews-ui.js:297-302 | A panel that needs no load, with no stale one in flight, starts none for any key undisturbed. |
| `AccessReviews.RetriedExactly` | public/external-access-reviews-ui.js:292-320 | For either panel, a reply to its current load leaves the next change of the page to load again if and only if the data found no place, or the load failed in another way than 401, 403 or 404 and the panel is not in place from before. |
| `AccessReviews.FailureIsRetried` | public/external-access-reviews-ui.js:311-320 | From the start of the page, for either panel, n further changes of the page make n more loads when each one fails so. |
| `AccessReviews.RankFalls` | public/external-access-reviews-ui.js:380-411 | Every queued pass and every reply lowers a natural number. |
| `AccessReviews.LoopRests` | public/external-access-reviews-ui.js:380-411 | From every reachable state the loop of passes, loads and their own mutations rests within 65 reactions, whatever the server answers. |
| `NotificationFloor.Bell.RefreshSummary` | public/notifications-ui.js:312-325 | Sends unless the shell is missing or the floor holds, and moves the floor before the answer is known. |
| `NotificationFloor.Bell.MountNotifications` | public/notifications-ui.js:327-336 | Unforced refresh, and at most one poll is set up. |
| `NotificationFloor.FloorKept` | public/notifications-ui.js:309-342 | In every run an unforced request follows the request before it, forced or not, by at least 15 000 ms; at most one mount waits and at most one poll exists. |
| `NotificationFloor.SendsExactly` | public/notifications-ui.js:309-342 | In every run the log of requests grows by one if and only if a poll fires after the first mount, forced, or a mount follows a change of the page and the last request is at least 15 000 ms old, unforced, and in both cases the application is on the page. |
| `NotificationFloor.MountsAndPolls` | public/notifications-ui.js:327-342 | A mount waits for its frame unless the page has not changed since the last one, and there is one poll from the first mount on. |
| `NotificationFloor.WindowBound` | public/notifications-ui.js:309-336 | With a clock that does not run backwards a window of T ms with f forced requests holds at most f + T/15000 + 1 requests. |
| `AdminStatus.Status.LoadStatus` | public/instance-admin-ui.js:144-158 | Answers from memory, joins the request in flight, or sends one. |
| `AdminStatus.Status.OnReply` | public/instance-admin-ui.js:148-156 | What each reply leaves in memory and what the callers who joined are told. |
| `AdminStatus.Status.Reconcile` | public/instance-admin-ui.js:421-434 | A queued pass asks only when the navigation is on the page. |
| `AdminStatus.SingleFlight` | public/instance-admin-ui.js:144-158 | In every run at most one request is in flight, none once something is remembered, and every request but the last was answered with 401 or null. |
| `AdminStatus.JoinedAlike` | public/instance-admin-ui.js:146-157 | All callers that join one request get the same answer. |
| `AdminStatus.RememberedExactly` | public/instance-admin-ui.js:135-152 | In every run an administrator is remembered if and only if some reply granted it, a refusal if and only if some reply was one, and nothing if and only if all replies were 401 or null. |
| `AdminStatus.ToldExactly` | public/instance-admin-ui.js:146-157 | In every run whoever joined a request is told its reply, 401 and null as a refusal, and nothing before it; whoever joined none is told what was granted or refused. |
| `AdminStatus.RequestsExactly` | public/instance-admin-ui.js:135-158 | In every run a request is sent if and only if the status is wanted, by a caller or by a queued pass with the navigation on the page, while none is in flight and all replies so far were 401 or null. |
| `AdminStatus.RememberedForGood` | public/instance-admin-ui.js:144-152 | What is remembered never changes, is told to every later caller, and no request follows it. |
| `AdminStatus.DrawnOneAtATime` | public/instance-admin-ui.js:382-410 | While no pass looks at the flag when another waits between its look and its drawing, at most one of them waits or draws and the flag says which. |
| `AdminStatus.TurnExactly` | public/instance-admin-ui.js:382-410 | When a page is drawn, when its flag, its key and its shell change, and which passes wait. |
| `AdminStatus.DrawnOneAtATimeExactly` | public/instance-admin-ui.js:382-410 | With the key and the shell of the page in the state: at most one page is drawn at a time at every point of a run, whatever two passes may still come, if and only if that holds throughout the run. |
| `AdminStatus.WaitingPassesBothDraw` | public/instance-admin-ui.js:383-396 | From an empty page two passes that wait together both get past the key and draw: the flag is set only after the wait. |

## Left out

- Inline.CodeSpansRestoredInOrder: does not cover lines in which the image pass or the pasted-URL pass matches; the first writes a span into an attribute as plain text, the second copies one that a URL touches. Literals.PlainLines says which lines are free of both.
- PassMatches.RefusedLinksKept: speaks of the link pass; the later passes still compile emphasis or a pasted URL inside the text that was kept.
- Guarantees.TargetsAllowed: follows a mail address only up to its colon, because more is false for some texts (CutTarget.TargetIsCut); WholeTargets.TargetsWhole has the rest under a condition.
- MailTargets.LineNamed: is one-way where a label cuts an address that then runs into a code span; whether an `@` follows there depends on the code.
- WholeTargets.TargetsWhole: has a sufficient condition; the exact one is MailPasses.PassKeepsNames pass by pass, and MailExact.LineCutExactly for lines without images.
- MailLines.LineKept: is sufficient, too, for the same reason.
- Guarantees.RenderedIsSafe: claims nothing about how tags end; that is WholeTags.RenderedTags, which has a condition because it is false of some texts. Neither claims that elements are well nested.
- AccountScreen.OutcomeRestored: has its condition because a form of another screen may be answered late and write its card whatever the route is by then (AccountScreen.FormAnswerCoversOutcome).
- Realtime.OneTimer: says nothing about liveness; a reconnect of a past generation clears the timer before the generation is compared, and whether one is pending while disconnected is not claimed.
- Strings are sequences of Unicode characters, so the 200 000 of the length limit are counted in those and not in UTF-16 units; `null` and missing texts, which the renderer treats as empty, are the empty string.
- An `issueHref` that throws or returns something other than a string is not part of the model.
- Socket messages, the refresh they schedule and its own timer; the unread badge and the drawer.
- Thread, file and hunk markup other than buttons, cards and the form; loading a patch, switching whitespace and choosing a file.
- AccessReviews counts loads; a load of the repository panel sends a second request for the history when the user may manage it.
- The fields that the access panel adds to the invitation form, which it writes once.
- The sign-up, forgotten-password and reset-password forms themselves; only that a late answer writes a card, and that a reset moves the address.
- Document construction, styles, toasts, clipboard, `fetch` and JSON shapes are events or responses.
- AnchorValidation.PickedRangeAccepted: takes the whitespace setting to be "show", so that the browser and the server have the same hunks; with another setting PickedRangeChecked says when a range is accepted.
- DiffPanel.AtRest: leaves out failed requests, after which the panel stays as it was drawn, the redraws that reuse the payload, and a mount that finds the pull request closed.
- The position of a line in the patch text (`patchLine`), and numbers too large for a JavaScript integer.
- The other server modules, and every other settings, billing and marketing panel.
