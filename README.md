# Portfolio overlay tools: a verified model

This project models the three pieces of sequential logic in a personal
portfolio site's overlay tools, and proves what they promise:

- **Sticker studio** (`StickerHub`, `sticker_hub.dfy`): the magic-wand erase.
  A click reads the seed pixel's colour from the canvas's flat RGBA byte
  buffer. It then walks the whole buffer four bytes at a time and sets the
  alpha byte of every pixel whose RGB colour is closer than the tolerance to
  the seed colour to 0. It is a global threshold, not a flood fill. The studio
  also builds the sticker outline: a CSS filter of eight white drop shadows in
  the eight compass directions, followed by a contrast step.
- **Meme studio** (`MemeForge`, `meme_forge.dfy`): the daily quota of three
  simulated "AI" caption generations. It keeps an in-memory count and a
  persisted `{date, count}` entry. A generation picks one of five canned
  caption pairs. The draw effect resizes the canvas to the image, draws the
  image, and then draws the upper-cased captions, outline first and fill
  second, anchored at the top and bottom.
- **Command palette** (`CommandPalette`, `command_palette.dfy`): seven fixed
  commands, filtered by a case-insensitive substring match on their labels.
  An open flag is toggled by Cmd/Ctrl+K and cleared by Escape, by a click on
  the backdrop and by running any command.

`text.dfy` (`Text`) holds the ASCII case mapping and the substring test.
`wrappers.dfy` (`Wrappers`) holds `Option`.

The in-place parts keep their form: the erase is a method over an
`array<byte>` with a loop, the quota and the palette are classes whose
methods update fields, and the canvas is a class whose command log the draw
effect rebuilds. Each is proved against a pure function (`Erase`, `Click`,
`LoadQuota`, `Generate`, `MemeCommands`, `NextOpen`), and the lemmas state
the properties of those functions. The commands the palette lists are the
function `Palette.Listed`, stated through `Filter`.

Notes on behaviour that the model follows as the code is written:

- The colour test is `sqrt(d) < tolerance`, a strict comparison. So a
  tolerance of 0 erases nothing, not just the exact matches of the seed colour.
  With integer channels and an integer tolerance, the test equals
  `0 < tolerance && d < tolerance²`. The model uses that form, so it needs no
  square root.
- The click handler does no bounds check on the seed. A seed offset outside
  the buffer reads `undefined`, and every comparison with it is false, so
  nothing is erased. The model represents such a seed as `None`.
- The quota is reset only by the load effect, when the studio mounts. A
  generation never compares dates. A generation after midnight in a session
  opened the day before uses the old day's count and stores it under the new
  date (`GenerateDoesNotReset`).
- When nothing is stored, the load effect writes a fresh entry but does not
  set the in-memory count. The count keeps its start value, which is also 3.
- A zero-size image is not treated specially by the draw effect.
- Assigning the canvas width or height clears the bitmap and the context
  state. So each redraw starts from a blank canvas and never accumulates
  earlier captions.

## Model

| member | source | states |
|---|---|---|
| StickerHub.SeedOffset | src/sections/StickerHub.tsx:61 | the byte offset of the clicked pixel, `(y*width+x)*4`, with no bounds check; its meaning is given by `SeedColor` and `SeedInside` |
| StickerHub.WithinTolerance | src/sections/StickerHub.tsx:72-78 | the colour test `sqrt(d) < tolerance`, as `0 < tolerance && d < tolerance²`; its properties are `WithinToleranceMonotone`, `SelfWithinTolerance` and `FullToleranceIsTight` |
| StickerHub.SeedColor | src/sections/StickerHub.tsx:60-64 | the seed colour is the RGB of pixel `y*width+x`, read at byte offset `(y*width+x)*4`, and exists exactly when those three bytes are inside the buffer |
| StickerHub.SeedInside | src/sections/StickerHub.tsx:57-64 | a seed with `0 <= x < width` and `0 <= y < height` lies inside a `4*width*height` byte buffer and reads the clicked pixel's colour |
| StickerHub.Erase | src/sections/StickerHub.tsx:67-81 | the erase keeps the buffer's length |
| StickerHub.EraseAt | src/sections/StickerHub.tsx:67-81 | the four-byte walk agrees, byte by byte, with the per-byte statement: only an alpha byte of a pixel within tolerance changes, and it becomes 0 |
| StickerHub.EraseKeepsRgb | src/sections/StickerHub.tsx:67-81 | the red, green and blue bytes and the buffer length never change |
| StickerHub.EraseAlpha | src/sections/StickerHub.tsx:72-80 | a pixel's alpha becomes 0 exactly when its squared RGB distance to the seed is below the squared tolerance; otherwise it is unchanged |
| StickerHub.EraseNeverRestores | src/sections/StickerHub.tsx:78-80 | a transparent pixel stays transparent |
| StickerHub.EraseIsGlobal | src/sections/StickerHub.tsx:67-81 | two pixels with the same RGB get the same outcome wherever they are: a threshold, not a flood fill |
| StickerHub.WithinToleranceMonotone | src/sections/StickerHub.tsx:72-78 | a colour within tolerance `t1` is within every `t2 >= t1` |
| StickerHub.EraseMonotoneInTolerance | src/sections/StickerHub.tsx:78 | every pixel whose colour the `t1` test admits is erased with any `t2 >= t1` |
| StickerHub.ErasedStaysErased | src/sections/StickerHub.tsx:72-80 | every pixel transparent after an erase with `t1` is transparent after an erase with any `t2 >= t1` |
| StickerHub.EraseWithoutTolerance | src/sections/StickerHub.tsx:78 | a tolerance of 0 or less leaves the buffer unchanged |
| StickerHub.SquaredDistanceBound | src/sections/StickerHub.tsx:72-76 | two byte colours are at most `3*255²` apart, squared |
| StickerHub.EraseWithFullTolerance | src/sections/StickerHub.tsx:72-80 | a tolerance of 442 or more erases every pixel |
| StickerHub.FullToleranceIsTight | src/sections/StickerHub.tsx:72-78 | a tolerance of 441 does not: black is not within it of white |
| StickerHub.EraseTwice | src/sections/StickerHub.tsx:57-81 | after two clicks a pixel is transparent exactly when either click's test admits its colour; otherwise it keeps its alpha |
| StickerHub.EraseIdempotent | src/sections/StickerHub.tsx:67-81 | repeating a click with the same seed colour and tolerance changes nothing more |
| StickerHub.SelfWithinTolerance | src/sections/StickerHub.tsx:153 | with any slider tolerance (at least 1) a colour is within tolerance of itself |
| StickerHub.ClickErasesSeed | src/sections/StickerHub.tsx:61-80 | a click inside the image with tolerance at least 1 makes the clicked pixel transparent |
| StickerHub.ErasedPixel | src/sections/StickerHub.tsx:68-80 | the per-byte statement for the four bytes of one pixel: colour kept, alpha 0 exactly when within tolerance |
| StickerHub.ErasedBytes | src/sections/StickerHub.tsx:67-81 | a buffer that holds the per-byte erased value at every byte equals the erase of the original |
| StickerHub.EraseInPlace | src/sections/StickerHub.tsx:66-81 | the in-place loop leaves the buffer equal to `Erase` of its old contents |
| StickerHub.Click | src/sections/StickerHub.tsx:43-85 | the effect of a click on the buffer: its length is kept, and it is unchanged with magic-wand mode off or a seed outside the buffer; `ClickErasesSeed` and `HandleCanvasClick` state the rest |
| StickerHub.HandleCanvasClick | src/sections/StickerHub.tsx:43-85 | with magic-wand mode off the buffer is unchanged; otherwise it becomes the erase from the seed colour, and it is unchanged when the seed is outside the buffer |
| StickerHub.OutlineFilter | src/sections/StickerHub.tsx:102-113 | the outline filter list has nine entries; its shape is stated by the `Outline*` lemmas |
| StickerHub.OutlineFilterShape | src/sections/StickerHub.tsx:102-113 | the filter is eight sharp white drop shadows followed by a contrast of `100 + smoothness` percent |
| StickerHub.OutlineShadowIsCompassStep | src/sections/StickerHub.tsx:104-112 | every shadow is offset by one of the eight compass steps of length `w` |
| StickerHub.OutlineCoversCompassStep | src/sections/StickerHub.tsx:104-112 | every compass step of length `w` is the offset of some shadow |
| StickerHub.OutlineShadowsDistinct | src/sections/StickerHub.tsx:104-112 | for `w != 0` the eight shadows are pairwise distinct |
| StickerHub.OutlineWidthZero | src/sections/StickerHub.tsx:103-112 | with width 0 every one of the eight shadows is at offset `(0, 0)` |
| StickerHub.OutlineSymmetric | src/sections/StickerHub.tsx:104-112 | every shadow has its mirror image in the stack |
| MemeForge.LoadQuota | src/sections/MemeForge.tsx:18-33 | after the load effect the stored entry is dated today, and when an entry was stored its count equals the in-memory count |
| MemeForge.LoadSameDay | src/sections/MemeForge.tsx:18-24 | an entry dated today is adopted: the in-memory count becomes its count and the entry is kept |
| MemeForge.LoadNewDay | src/sections/MemeForge.tsx:25-32 | a missing entry, or one from another day, becomes `{today, 3}` and the in-memory count is 3 |
| MemeForge.LoadSyncs | src/sections/MemeForge.tsx:18-33 | after loading, the entry is dated today and its count equals the in-memory count |
| MemeForge.Generate | src/sections/MemeForge.tsx:94-124 | a request is granted exactly when the count is positive |
| MemeForge.RunGenerations | src/sections/MemeForge.tsx:94-124 | a run of requests grants at most one per request, and the count drops by exactly the number granted |
| MemeForge.GenerateRejected | src/sections/MemeForge.tsx:95-98 | a request with a count of 0 or less is rejected and changes nothing |
| MemeForge.GenerateConsumes | src/sections/MemeForge.tsx:103-121 | a granted request leaves both counts at the old count minus 1, stores today's date, shows one of the canned pairs and keeps the count non-negative |
| MemeForge.RunGenerationsGrants | src/sections/MemeForge.tsx:94-124 | a run of requests grants `min(requests, count)` of them, the count drops by that number and never goes below 0 |
| MemeForge.RunGenerationsUnchangedWhenExhausted | src/sections/MemeForge.tsx:95-98 | once the count is 0, further requests change nothing |
| MemeForge.ThreeGenerationsPerDay | src/sections/MemeForge.tsx:15-121 | on a new day three requests are granted and leave 2, 1 and 0; the fourth is rejected |
| MemeForge.GenerateDoesNotReset | src/sections/MemeForge.tsx:94-121 | a request on a later day than the stored one is not reset: an exhausted count stays rejected, a granted one stores the carried-over count under the new date |
| MemeForge.CaptionsUpperCase | src/sections/MemeForge.tsx:103-109 | every canned caption is non-empty and has no lower-case letter |
| MemeForge.AiCaptionsUpperCase | src/sections/MemeForge.tsx:103-109 | upper-casing a canned caption leaves it unchanged |
| MemeForge.Forge.constructor | src/sections/MemeForge.tsx:11-15 | the studio mounts with 3 generations, empty captions and the stored entry untouched |
| MemeForge.Forge.LoadLimit | src/sections/MemeForge.tsx:18-33 | the load effect moves the quota state as `LoadQuota` does and leaves the captions alone |
| MemeForge.Forge.HandleAIGenerate | src/sections/MemeForge.tsx:94-125 | granted exactly when the count is positive; a rejection changes nothing; a grant sets the captions and the quota as `Generate` does |
| MemeForge.CaptionCommands | src/sections/MemeForge.tsx:66-77 | an empty caption draws nothing, any other draws two text commands, all at the given anchor and baseline |
| MemeForge.MemeCommands | src/sections/MemeForge.tsx:55-77 | a redraw starts with the image at `(0, 0)` and draws no other image |
| MemeForge.MemeWithoutCaptions | src/sections/MemeForge.tsx:65-77 | with both captions empty only the image is drawn |
| MemeForge.MemeCommandCount | src/sections/MemeForge.tsx:55-77 | a redraw issues the image first, then two commands for each non-empty caption |
| MemeForge.MemeTextCommands | src/sections/MemeForge.tsx:63-77 | every text command is upper case and centred; top captions are at `(width/2, 20)` with a top baseline and bottom ones at `(width/2, height-20)` with a bottom baseline; each fill directly follows the stroke of the same text at the same anchor |
| MemeForge.MemeTopBeforeBottom | src/sections/MemeForge.tsx:65-77 | the top caption is drawn before the bottom caption |
| MemeForge.MemeDrawsUpperCaseCaptions | src/sections/MemeForge.tsx:66-77 | non-empty upper-case captions are drawn exactly as given, stroke then fill, top then bottom |
| MemeForge.MemeUpperCaseInvariant | src/sections/MemeForge.tsx:66-77 | captions typed in upper case draw the same commands as their original text |
| MemeForge.MemeDrawsGeneratedCaption | src/sections/MemeForge.tsx:103-113 | a generated caption pair is drawn exactly as it is listed |
| MemeForge.Canvas.constructor | src/sections/MemeForge.tsx:52-53 | a fresh canvas is 300 by 150, blank, with the default alphabetic baseline, until the draw effect resizes it |
| MemeForge.Canvas.SetWidth | src/sections/MemeForge.tsx:52 | setting the width clears the canvas and resets the text baseline |
| MemeForge.Canvas.SetHeight | src/sections/MemeForge.tsx:53 | setting the height clears the canvas and resets the text baseline |
| MemeForge.Canvas.SetTextBaseline | src/sections/MemeForge.tsx:67 | sets the baseline later text commands use |
| MemeForge.Canvas.DrawImageAt | src/sections/MemeForge.tsx:56 | appends an image draw at the given position |
| MemeForge.Canvas.StrokeTextAt | src/sections/MemeForge.tsx:68 | appends an outline of the text at the anchor with the current baseline |
| MemeForge.Canvas.FillTextAt | src/sections/MemeForge.tsx:69 | appends a fill of the text at the anchor with the current baseline |
| MemeForge.DrawMeme | src/sections/MemeForge.tsx:44-79 | with no image nothing changes; otherwise the canvas takes the image's size and holds exactly `MemeCommands`, whatever it held before |
| CommandPalette.Matches | src/components/CommandPalette.tsx:83 | a command matches when its lower-cased label includes the lower-cased query; its properties are `FilterMembership`, `FilterIgnoresCase` and `FilterLowerQuery` |
| CommandPalette.Filter | src/components/CommandPalette.tsx:82-84 | the filter never lists more commands than it is given |
| CommandPalette.FilterMembershipAll | src/components/CommandPalette.tsx:82-84 | for every command at once: listed exactly when present and matching |
| CommandPalette.FilterMembership | src/components/CommandPalette.tsx:82-84 | a command is listed exactly when it is in the list and its lower-cased label contains the lower-cased query |
| CommandPalette.FilterIsSubsequence | src/components/CommandPalette.tsx:82-84 | the listed commands are an order-preserving subsequence of the commands |
| CommandPalette.FilterEmptyQuery | src/components/CommandPalette.tsx:82-84 | the empty query keeps every command |
| CommandPalette.AllCommandsForEmptyQuery | src/components/CommandPalette.tsx:31-84 | the empty query lists all seven commands |
| CommandPalette.FilterIgnoresCase | src/components/CommandPalette.tsx:82-84 | queries that lower-case alike list the same commands |
| CommandPalette.FilterLowerQuery | src/components/CommandPalette.tsx:83 | a query lists the same commands as its lower-cased form |
| CommandPalette.FilterIdempotent | src/components/CommandPalette.tsx:82-84 | filtering the listed commands again with the same query changes nothing |
| CommandPalette.CommandIdsDistinct | src/components/CommandPalette.tsx:31-80 | the seven command ids are pairwise distinct, although two commands share the shortcut `S` |
| CommandPalette.NextOpen | src/components/CommandPalette.tsx:17-24 | the open flag after a key press; its behaviour is stated by `ToggleTwice`, `EscapeCloses` and `OtherKeysIgnored` |
| CommandPalette.ToggleTwice | src/components/CommandPalette.tsx:17-21 | Cmd/Ctrl+`k` flips the open flag, so pressing it twice restores it |
| CommandPalette.EscapeCloses | src/components/CommandPalette.tsx:22-24 | Escape closes the palette |
| CommandPalette.OtherKeysIgnored | src/components/CommandPalette.tsx:17-24 | any other key, including `K` with a modifier, leaves the open flag unchanged |
| CommandPalette.Palette.constructor | src/components/CommandPalette.tsx:12-80 | the palette starts closed with an empty query and the seven commands |
| CommandPalette.Palette.Listed | src/components/CommandPalette.tsx:82-111 | nothing is listed while closed; while open, a command is listed exactly when it is in the palette's command list and matches the query, and the list keeps their order |
| CommandPalette.Palette.HandleKeyDown | src/components/CommandPalette.tsx:17-25 | the key handler moves the open flag as `NextOpen` does and prevents the default action exactly for the toggle |
| CommandPalette.Palette.SetQuery | src/components/CommandPalette.tsx:98 | typing replaces the query, and an open palette then lists the commands matching it |
| CommandPalette.Palette.ClickOverlay | src/components/CommandPalette.tsx:89 | a click on the backdrop closes the palette, which then lists nothing |
| CommandPalette.Palette.RunCommand | src/components/CommandPalette.tsx:31-80 | every command performs its effect and leaves the palette closed, listing nothing |
| Text.ToUpper | src/sections/MemeForge.tsx:68-76 | ASCII upper-casing keeps the length |
| Text.ToLower | src/components/CommandPalette.tsx:83 | ASCII lower-casing keeps the length |
| Text.Contains | src/components/CommandPalette.tsx:83 | `includes`: some position of the label starts an occurrence of the query; `ContainsEmpty` states the empty case |
| Text.ToUpperIsUpperCase | src/sections/MemeForge.tsx:68-76 | upper-casing keeps the length and leaves no lower-case letter |
| Text.ToUpperIdempotent | src/sections/MemeForge.tsx:68-76 | upper-casing twice is upper-casing once |
| Text.ToLowerIdempotent | src/components/CommandPalette.tsx:83 | lower-casing twice is lower-casing once |
| Text.ContainsEmpty | src/components/CommandPalette.tsx:83 | every label includes the empty query |

## Left out

- Click-to-pixel scaling with `getBoundingClientRect` and `Math.floor` (src/sections/StickerHub.tsx:51-55): this is floating-point geometry, so the clicked pixel is a parameter.
- HandleCanvasClick, EraseTwice: the canvas is modelled as a lossless byte buffer between clicks. A browser canvas may store colour premultiplied by alpha, so `putImageData` followed by the next click's `getImageData` (src/sections/StickerHub.tsx:57, 83) can read an erased pixel back as `(0, 0, 0, 0)` and can shift the colour of a semi-transparent pixel. A later click seeded on such a pixel, or testing it, may then see a different colour from the one the model keeps.
- The missing-canvas and missing-context early returns (src/sections/StickerHub.tsx:44, 47-48; src/sections/MemeForge.tsx:45-49): the model treats the canvas and its context as present. `getImageData` and `putImageData` become in-place updates of the `array<byte>`.
- `Math.sqrt` and `Math.pow`: these are replaced by the exact integer squared distance. The colour test is still exact, because the channels and the tolerance are integers.
- Image ingestion and export: `FileReader`, `Image` decoding, template URL fetches, `html2canvas`, `toDataURL` and download links. These are I/O and foreign libraries.
- The rendering of the CSS filter, the caption font, the fill and stroke colours, the line width (`width/150`), the font size (`width/10`) and `textAlign`. These are browser rendering. Only the offset list and the command list are modelled.
- `localStorage` and `JSON.parse`: the entry is an optional `{date, count}` record. A malformed stored value, which would make `JSON.parse` throw, is not modelled. Dates are opaque strings compared for equality.
- The 1.5-second `setTimeout`, the `isGenerating` flag and the `alert`: the generation is one synchronous step. `Math.random` is replaced by a caption index parameter in `[0, 5)`.
- The disabled state of the generate button (src/sections/MemeForge.tsx:199): this is UI only. The handler's own guard on the count is modelled.
- Navigation actions (`window.open`, `scrollTo`, `scrollIntoView`, and the overlay-opening callbacks): each becomes an `Effect` value that a command returns. The model does not say what the browser then does.
- Unicode case mapping: `toUpperCase` and `toLowerCase` are modelled on ASCII letters only. The command labels and the canned captions are ASCII, but typed captions (src/sections/MemeForge.tsx:209-220) and the typed query (src/components/CommandPalette.tsx:93-99) can be any text. JavaScript maps some characters to several (`"ß".toUpperCase()` is `"SS"`), so the length preservation in `Text.ToUpper` and `Text.ToUpperIsUpperCase` holds only for the ASCII mapping.
- The `stopPropagation` on the palette's inner container: `ClickOverlay` models only a click outside the list.
- Scroll animations, static sections, the smooth-scroll loop and the overlay open flags in src/App.tsx: these are presentation with no logic to state.
