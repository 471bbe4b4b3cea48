# LibrePCB stroke text, stroke font and LFF font

A Dafny model of how LibrePCB holds and draws stroke texts: these are the
texts shown on schematics, symbols and footprints, drawn with the strokes of
a vector font. The model covers four parts:

- **`StrokeText` entity** (`stroketext.dfy`, `stroketext_node.dfy`). A stroke
  text has a UUID and nine mutable attributes: layer name, text, position,
  rotation, height, stroke width ratio, line spacing factor, alignment and
  the mirror flag. Each setter changes one attribute. It then calls the
  matching callback once on every registered observer, but only when the
  value really changed. The entity is read from its S-expression node, with
  the legacy format and the defaults of older files, and written back to it.
  Writing it and reading it back gives the same attributes when the layer
  name is not empty.
- **`CmdStrokeTextEdit` command** (`cmdstroketextedit.dfy`). It takes a
  snapshot of the attributes when it is created. It then stages new values,
  optionally applying them right away ("immediate"). Execute and redo apply
  the staged set through the setters, undo applies the snapshot. A command
  destroyed without ever being executed puts the snapshot back.
- **`StrokeFont` layout engine** (`strokefont.dfy`). It turns a possibly
  multi-line text into paths:
  - a space moves the pen by the height;
  - a glyph is drawn at the pen, which then moves by the glyph's right edge
    plus a gap of 3/10 of the height;
  - a line's width is the pen position less one gap;
  - the text's width is the widest line;
  - each line is shifted by its horizontal and vertical alignment offset.
- **`RS_Font` LFF font loader** (imported from LibreCAD; `font.dfy`).
  `readLFF` reads the file's `#` header lines into the font metadata. It
  reads each `[code]` glyph block, up to the next empty line, into a raw
  table. `generateLffFont` turns the lines of one glyph into polygons: a
  `C` line reuses another glyph, building it first when it is missing; a
  stroke line becomes one polygon. `generateAllFonts` builds every glyph of
  the raw table in ascending code order.

How the source's values appear in the model:

- Lengths are whole nanometres, ratios parts per million and angles
  microdegrees, as in LibrePCB's own types. C++ integer division and
  remainder, which truncate toward zero, are written out as `TruncDiv` and
  `TruncRem`.
- Strings are sequences of characters. The Qt string operations the code
  relies on are modelled exactly on ASCII: splitting with and without empty
  parts, trimming and lower-casing. Hexadecimal conversion is modelled for
  plain digit runs (`Strings.ToIntHex` under "Left out").
- Library geometry that the code calls but does not define enters as a
  function-typed parameter: point rotation and mirroring, the mirrored layer
  name, `vertex2point`, `vertex2angle` and the bounding box's right edge.
  Its results are therefore taken as given.
- The LFF file is given as the sequence of its lines.
- Numbers in the LFF file (coordinates, spacings, bulges) are kept as the
  text the file holds.

The final gap is subtracted from every line's width unconditionally
(strokefont.cpp:122). So a line of `n` spaces is `n` heights less one gap
wide, and an empty line is minus one gap wide (`StrokeFonts.AllSpacesLine`).

## Model

| member | source | states |
|---|---|---|
| `Primitives.TruncDiv` | libs/librepcb/common/font/strokefont.cpp:72 | C++ `/` on lengths: the magnitude is the quotient of the magnitudes, and the sign follows the operands' signs (truncation toward zero) |
| `Primitives.TruncRem` | libs/librepcb/common/geometry/cmd/cmdstroketextedit.cpp:129 | C++ `%`, as used by angle addition: the remainder is smaller than the divisor and takes the dividend's sign |
| `Primitives.TruncDivRem` | libs/librepcb/common/font/strokefont.cpp:72 | the quotient and remainder recompose the dividend |
| `Primitives.AddAngle` | libs/librepcb/common/geometry/cmd/cmdstroketextedit.cpp:129 | angle `+=` stays inside one full turn, and is plain addition when the sum already is |
| `Primitives.Translated` | libs/librepcb/common/font/strokefont.cpp:114 | `Path::translated` keeps the vertex count |
| `Primitives.TranslatedAt` | libs/librepcb/common/font/strokefont.cpp:114 | `Path::translated` moves every vertex by the offset and keeps its arc angle |
| `Primitives.TranslatedAll` | libs/librepcb/common/font/strokefont.cpp:83-85 | translating a list of paths keeps the count |
| `Primitives.TranslatedAllAt` | libs/librepcb/common/font/strokefont.cpp:83-85 | translating a list of paths translates each one, in order |
| `Primitives.TranslatedAllAppend` | libs/librepcb/common/font/strokefont.cpp:113-115 | translating a concatenation is concatenating the translations |
| `Primitives.TranslatedAllTwice` | libs/librepcb/common/font/strokefont.cpp:83-85 | translating twice is translating once by the sum of the offsets |
| `Primitives.TranslatedAllOrigin` | libs/librepcb/common/font/strokefont.cpp:66-68 | translating by (0, 0) changes nothing |
| `Strings.SplitKeep` | libs/librepcb/common/font/strokefont.cpp:94 | `split('\n')` gives one more part than there are separators |
| `Strings.SplitKeepSeparatorFree` | libs/librepcb/common/font/strokefont.cpp:94 | no part of `split('\n')` holds a separator |
| `Strings.JoinSplitKeep` | libs/librepcb/common/font/strokefont.cpp:94 | joining the parts with the separator gives back the text |
| `Strings.JoinSplitKeepAtSeparator` | libs/librepcb/common/font/strokefont.cpp:94 | the round trip holds for a text starting with the separator once it holds for the rest |
| `Strings.JoinSplitKeepAtOther` | libs/librepcb/common/font/strokefont.cpp:94 | the round trip holds for a text starting with another character once it holds for the rest |
| `Strings.JoinPrepend` | libs/librepcb/common/font/strokefont.cpp:94 | a character put in front of the first part is put in front of the join |
| `Strings.SplitKeepJoin` | libs/librepcb/common/font/strokefont.cpp:94 | splitting a separator-free join gives back the parts |
| `Strings.NonEmptyParts` | libs/librepcb/common/font/font.cpp:114 | every part kept is non-empty, and no more parts are kept than there were |
| `Strings.NonEmptyPartsMembers` | libs/librepcb/common/font/font.cpp:114 | every part kept was a part, and every non-empty part is kept |
| `Strings.SplitSkipEmpty` | libs/librepcb/common/font/font.cpp:114 | `split(sep, SkipEmptyParts)` gives only non-empty parts |
| `Strings.SplitSkipEmptySeparatorFree` | libs/librepcb/common/font/font.cpp:114 | no part `split(sep, SkipEmptyParts)` gives holds the separator |
| `Strings.SplitSkipEmptyContents` | libs/librepcb/common/font/font.cpp:222 | the parts, concatenated, are exactly the text without its separators |
| `Strings.Trimmed` | libs/librepcb/common/font/font.cpp:119-120 | `trimmed()` is the slice between the leading and trailing white space, and starts and ends with non-space |
| `Strings.LowerAscii` | libs/librepcb/common/font/font.cpp:122 | `toLower()` lower-cases each character in place, keeping the length |
| `Strings.HexValue` | libs/librepcb/common/font/font.cpp:153 | a run of n hexadecimal digits has a value below 16^n |
| `Strings.ToIntHex` | libs/librepcb/common/font/font.cpp:213 | `toInt(nullptr, 16)` is the digits' value when the text is all hexadecimal and fits an int; 0 for empty text, a non-hexadecimal character or a value above the int maximum; never above the int maximum |
| `Strings.HexCapture` | libs/librepcb/common/font/font.cpp:149-152 | the regular expression `[0-9A-Fa-f]{1,5}` finds nothing exactly when the line has no hexadecimal digit; otherwise it matches the leftmost digit run of 1 to 5 digits |
| `StrokeTexts.ParseUuid` | libs/librepcb/common/geometry/stroketext.cpp:58-65 | a string gives the null UUID exactly when it is not a canonical UUID; otherwise the UUID with that text |
| `StrokeTexts.Valid` | libs/librepcb/common/geometry/stroketext.cpp:255-262 | `checkAttributesValidity`: a non-null UUID, a non-empty text, a positive height and a non-negative stroke width ratio |
| `StrokeTexts.StrokeText.constructor` | libs/librepcb/common/geometry/stroketext.cpp:46-54 | the ten attributes are the given values; no observers |
| `StrokeTexts.StrokeText.Copy` | libs/librepcb/common/geometry/stroketext.cpp:35-38 | all ten attributes are copied; observers are not |
| `StrokeTexts.StrokeText.CopyWithUuid` | libs/librepcb/common/geometry/stroketext.cpp:40-44 | the copy differs from the original only in its UUID |
| `StrokeTexts.StrokeText.Notify` | libs/librepcb/common/geometry/stroketext.cpp:110-112 | the callback reaches every registered observer exactly once, and nothing else |
| `StrokeTexts.StrokeText.SetLayerName` | libs/librepcb/common/geometry/stroketext.cpp:106-113 | only the layer name changes; observers are notified exactly when the value differed |
| `StrokeTexts.StrokeText.SetText` | libs/librepcb/common/geometry/stroketext.cpp:115-122 | only the text changes; observers are notified exactly when the value differed |
| `StrokeTexts.StrokeText.SetPosition` | libs/librepcb/common/geometry/stroketext.cpp:124-131 | only the position changes; observers are notified exactly when the value differed |
| `StrokeTexts.StrokeText.SetRotation` | libs/librepcb/common/geometry/stroketext.cpp:133-140 | only the rotation changes; observers are notified exactly when the value differed |
| `StrokeTexts.StrokeText.SetHeight` | libs/librepcb/common/geometry/stroketext.cpp:142-149 | only the height changes; observers are notified exactly when the value differed |
| `StrokeTexts.StrokeText.SetStrokeWidthRatio` | libs/librepcb/common/geometry/stroketext.cpp:151-158 | only the stroke width ratio changes; observers are notified exactly when the value differed |
| `StrokeTexts.StrokeText.SetLineSpacingFactor` | libs/librepcb/common/geometry/stroketext.cpp:160-167 | only the line spacing factor changes; observers are notified exactly when the value differed |
| `StrokeTexts.StrokeText.SetAlign` | libs/librepcb/common/geometry/stroketext.cpp:169-176 | only the alignment changes; observers are notified exactly when the value differed |
| `StrokeTexts.StrokeText.SetMirrored` | libs/librepcb/common/geometry/stroketext.cpp:178-185 | only the mirror flag changes; observers are notified exactly when the value differed |
| `StrokeTexts.StrokeText.RegisterObserver` | libs/librepcb/common/geometry/stroketext.cpp:191-194 | the observer set gains the observer (a second registration changes nothing) |
| `StrokeTexts.StrokeText.UnregisterObserver` | libs/librepcb/common/geometry/stroketext.cpp:196-199 | the observer set loses the observer |
| `StrokeTexts.StrokeText.Equals` | libs/librepcb/common/geometry/stroketext.cpp:221-234 | `==` holds exactly when all ten attributes, the UUID included, are equal |
| `StrokeTexts.StrokeText.NotEquals` | libs/librepcb/common/geometry/stroketext.h:122 | `!=` is the negation of `==` |
| `StrokeTexts.StrokeText.Assign` | libs/librepcb/common/geometry/stroketext.cpp:236-249 | assignment copies the ten attributes and keeps the observers |
| `StrokeTextNodes.RequiredText` | libs/librepcb/common/geometry/stroketext.cpp:66 | a string child read with throw-if-empty succeeds exactly when it is present and non-empty; otherwise a runtime error naming the child |
| `StrokeTextNodes.Required` | libs/librepcb/common/geometry/stroketext.cpp:69-71 | a required child succeeds exactly when it is present and readable; otherwise a runtime error naming it |
| `StrokeTextNodes.Optional` | libs/librepcb/common/geometry/stroketext.cpp:75-80 | an optional child gives its value, the default when missing, and an error only when unreadable |
| `StrokeTextNodes.ReadIdentity` | libs/librepcb/common/geometry/stroketext.cpp:58-65 | with a UUID first child, the identity is that UUID and the text the value child; in the legacy format, a fresh UUID and the first child as the text |
| `StrokeTextNodes.ReadFields` | libs/librepcb/common/geometry/stroketext.cpp:58-93 | the attributes hold the values of the children present; the children are read in source order and the first one missing or unreadable is the runtime error, naming that child |
| `StrokeTextNodes.Deserialize` | libs/librepcb/common/geometry/stroketext.cpp:56-96 | the result is valid with positive height and holds the values of the children present; a non-positive height is a runtime error; an unreadable child is the error `ReadFields` reports; only a negative stroke width ratio fails the final check, as a logic error; the legacy format and the older-file defaults (10 %, 150 %, not mirrored) |
| `StrokeTextNodes.Serialize` | libs/librepcb/common/geometry/stroketext.cpp:201-215 | writing succeeds exactly for a valid stroke text; otherwise a logic error |
| `StrokeTextNodes.RoundTrip` | libs/librepcb/common/geometry/stroketext.cpp:201-215 | a valid stroke text with a non-empty layer name is read back unchanged from what it writes |
| `StrokeTextNodes.EmptyLayerNotReadBack` | libs/librepcb/common/geometry/stroketext.cpp:66 | a valid stroke text with an empty layer name is written but reading it back fails on the layer child |
| `StrokeTextNodes.LoadStrokeText` | libs/librepcb/common/geometry/stroketext.cpp:56-96 | the node constructor yields a fresh entity holding the deserialized attributes, or the deserializer's error |
| `StrokeTextCommands.RotatedValues` | libs/librepcb/common/geometry/cmd/cmdstroketextedit.cpp:125-134 | rotating turns the staged position about the center and adds the angle, leaving the other staged values |
| `StrokeTextCommands.MirroredValues` | libs/librepcb/common/geometry/cmd/cmdstroketextedit.cpp:143-148 | mirroring mirrors the staged layer and position and toggles the flag, leaving the rest |
| `StrokeTextCommands.MirrorTwice` | libs/librepcb/common/geometry/cmd/cmdstroketextedit.cpp:143-148 | mirroring twice restores the flag, and restores everything when the library mirror operations are involutive |
| `StrokeTextCommands.CmdStrokeTextEdit.constructor` | libs/librepcb/common/geometry/cmd/cmdstroketextedit.cpp:37-49 | the snapshot and the staged values are both the entity's current attributes; not yet executed |
| `StrokeTextCommands.CmdStrokeTextEdit.Destroy` | libs/librepcb/common/geometry/cmd/cmdstroketextedit.cpp:51-56 | a command never executed restores the snapshot; an executed one leaves the entity alone |
| `StrokeTextCommands.CmdStrokeTextEdit.SetLayerName` | libs/librepcb/common/geometry/cmd/cmdstroketextedit.cpp:62-67 | stages the layer name; when immediate, only the entity's layer name changes, otherwise the entity is untouched; when immediate, every observer hears the change once if the value differed, and nobody hears anything otherwise |
| `StrokeTextCommands.CmdStrokeTextEdit.SetText` | libs/librepcb/common/geometry/cmd/cmdstroketextedit.cpp:69-74 | stages the text; when immediate, only the entity's text changes, otherwise the entity is untouched; when immediate, every observer hears the change once if the value differed, and nobody hears anything otherwise |
| `StrokeTextCommands.CmdStrokeTextEdit.SetHeight` | libs/librepcb/common/geometry/cmd/cmdstroketextedit.cpp:76-81 | stages the height; when immediate, only the entity's height changes, otherwise the entity is untouched; when immediate, every observer hears the change once if the value differed, and nobody hears anything otherwise |
| `StrokeTextCommands.CmdStrokeTextEdit.SetStrokeWidthRatio` | libs/librepcb/common/geometry/cmd/cmdstroketextedit.cpp:83-88 | stages the stroke width ratio; when immediate, only that attribute of the entity changes, otherwise it is untouched; when immediate, every observer hears the change once if the value differed, and nobody hears anything otherwise |
| `StrokeTextCommands.CmdStrokeTextEdit.SetLineSpacingFactor` | libs/librepcb/common/geometry/cmd/cmdstroketextedit.cpp:90-95 | stages the line spacing factor; when immediate, only that attribute of the entity changes, otherwise it is untouched; when immediate, every observer hears the change once if the value differed, and nobody hears anything otherwise |
| `StrokeTextCommands.CmdStrokeTextEdit.SetAlignment` | libs/librepcb/common/geometry/cmd/cmdstroketextedit.cpp:97-102 | stages the alignment; when immediate, only the entity's alignment changes, otherwise the entity is untouched; when immediate, every observer hears the change once if the value differed, and nobody hears anything otherwise |
| `StrokeTextCommands.CmdStrokeTextEdit.SetPosition` | libs/librepcb/common/geometry/cmd/cmdstroketextedit.cpp:104-109 | stages the position; when immediate, only the entity's position changes, otherwise the entity is untouched; when immediate, every observer hears the change once if the value differed, and nobody hears anything otherwise |
| `StrokeTextCommands.CmdStrokeTextEdit.SetDeltaToStartPos` | libs/librepcb/common/geometry/cmd/cmdstroketextedit.cpp:111-116 | stages the snapshot position plus the delta, so repeated calls do not accumulate; when immediate, every observer hears the change once if the value differed, and nobody hears anything otherwise |
| `StrokeTextCommands.CmdStrokeTextEdit.SetRotation` | libs/librepcb/common/geometry/cmd/cmdstroketextedit.cpp:118-123 | stages the rotation; when immediate, only the entity's rotation changes, otherwise the entity is untouched; when immediate, every observer hears the change once if the value differed, and nobody hears anything otherwise |
| `StrokeTextCommands.CmdStrokeTextEdit.Rotate` | libs/librepcb/common/geometry/cmd/cmdstroketextedit.cpp:125-134 | the staged values become their rotation; when immediate, the entity's position and rotation follow |
| `StrokeTextCommands.CmdStrokeTextEdit.SetMirrored` | libs/librepcb/common/geometry/cmd/cmdstroketextedit.cpp:136-141 | stages the mirror flag; when immediate, only the entity's flag changes, otherwise the entity is untouched; when immediate, every observer hears the change once if the value differed, and nobody hears anything otherwise |
| `StrokeTextCommands.CmdStrokeTextEdit.Mirror` | libs/librepcb/common/geometry/cmd/cmdstroketextedit.cpp:143-148 | the staged values become their mirror image; when immediate, the entity's layer, flag and position follow |
| `StrokeTextCommands.CmdStrokeTextEdit.PerformExecute` | libs/librepcb/common/geometry/cmd/cmdstroketextedit.cpp:154-168 | the entity takes the staged values; the result is true exactly when some staged value differs from the snapshot; observers hear nothing when the entity already held the staged values |
| `StrokeTextCommands.CmdStrokeTextEdit.Execute` | libs/librepcb/common/geometry/cmd/cmdstroketextedit.cpp:154-168 | the first execution applies the staged values, reports whether they differ from the snapshot, and marks the command executed |
| `StrokeTextCommands.CmdStrokeTextEdit.PerformUndo` | libs/librepcb/common/geometry/cmd/cmdstroketextedit.cpp:170-181 | the entity takes the snapshot values |
| `StrokeTextCommands.CmdStrokeTextEdit.PerformRedo` | libs/librepcb/common/geometry/cmd/cmdstroketextedit.cpp:183-194 | the entity takes the staged values again |
| `StrokeTextCommands.AbandonedEdit` | libs/librepcb/common/geometry/cmd/cmdstroketextedit.cpp:51-56 | an immediate edit dropped unexecuted leaves the entity's attributes, UUID and observers as they were |
| `StrokeTextCommands.EmptyEdit` | libs/librepcb/common/geometry/cmd/cmdstroketextedit.cpp:154-181 | an edit staging nothing reports no change, and executing and undoing it leaves the attributes as they were and informs no observer |
| `StrokeFonts.LoadedOrEmpty` | libs/librepcb/common/font/strokefont.cpp:147-156 | the glyph table is the loaded font's, or empty when loading failed |
| `StrokeFonts.PathOf` | libs/librepcb/common/font/strokefont.cpp:175-182 | `polyline2path`: vertex i at its position, with the arc angle of vertex (i+1) mod size |
| `StrokeFonts.PathsOf` | libs/librepcb/common/font/strokefont.cpp:164-173 | `polylines2paths`: empty polylines are skipped, and no path is empty |
| `StrokeFonts.PathsOfNoEmpty` | libs/librepcb/common/font/strokefont.cpp:164-173 | with no empty polyline, path i is the path of polyline i |
| `StrokeFonts.PathsOfEmptyAppended` | libs/librepcb/common/font/strokefont.cpp:169 | an empty polyline adds nothing |
| `StrokeFonts.Gap` | libs/librepcb/common/font/strokefont.cpp:119 | the letter gap `(height * 3) / 10` lies between 0 and the height |
| `StrokeFonts.CharLayouts` | libs/librepcb/common/font/strokefont.cpp:108-121 | one layout per character, each determined by that character alone |
| `StrokeFonts.CharLayoutOf` | libs/librepcb/common/font/strokefont.cpp:108-120 | a space draws nothing and advances by the height; a glyph draws its paths and advances by its right edge plus the gap |
| `StrokeFonts.PenAfterConcat` | libs/librepcb/common/font/strokefont.cpp:108-121 | the pen advances are additive over concatenation |
| `StrokeFonts.DrawnConcat` | libs/librepcb/common/font/strokefont.cpp:113-115 | the paths of a concatenation are the first part's, then the second part's moved by the first part's advance |
| `StrokeFonts.DrawnSnocConcat` | libs/librepcb/common/font/strokefont.cpp:113-115 | the last character of a concatenation is drawn at the pen position after everything before it |
| `StrokeFonts.ShiftedSnoc` | libs/librepcb/common/font/strokefont.cpp:83-85 | moving a list with an already-moved tail moves the head by the one offset and the tail by the sum |
| `StrokeFonts.LineSnoc` | libs/librepcb/common/font/strokefont.cpp:108-121 | appending a character draws it where the pen is and moves the pen by its advance |
| `StrokeFonts.LineConcat` | libs/librepcb/common/font/strokefont.cpp:108-121 | laying out a + b is laying out a, then b starting where a's pen stopped |
| `StrokeFonts.LineWidth` | libs/librepcb/common/font/strokefont.cpp:107-122 | a line's width is the pen position after its characters less one gap |
| `StrokeFonts.Advance` | libs/librepcb/common/font/strokefont.cpp:107-121 | the pen position strokeLine reaches after the last character, before the final gap is taken off |
| `StrokeFonts.LinePaths` | libs/librepcb/common/font/strokefont.cpp:106-115 | the paths strokeLine returns: each character's paths shifted to the pen position it is drawn at, in character order |
| `StrokeFonts.SpaceAppended` | libs/librepcb/common/font/strokefont.cpp:109-110 | a space moves the pen by the height and draws nothing |
| `StrokeFonts.GlyphAppended` | libs/librepcb/common/font/strokefont.cpp:112-119 | a glyph is drawn at the pen position, and the pen moves by its right edge plus the gap |
| `StrokeFonts.AllSpacesLine` | libs/librepcb/common/font/strokefont.cpp:107-122 | n spaces are n heights less one gap wide and draw nothing |
| `StrokeFonts.SingleGlyphLine` | libs/librepcb/common/font/strokefont.cpp:112-122 | a one-glyph line is as wide as the glyph's right edge and draws the glyph unmoved |
| `StrokeFonts.LayoutLines` | libs/librepcb/common/font/strokefont.cpp:94-97 | one layout per line, empty lines included, each being that line's paths and width |
| `StrokeFonts.LayoutLinesSnoc` | libs/librepcb/common/font/strokefont.cpp:97 | each line appends its own layout after the earlier lines' |
| `StrokeFonts.MaxWidthBounds` | libs/librepcb/common/font/strokefont.cpp:98 | the width output is at least its input and every line's width, and equals one of them |
| `StrokeFonts.MaxWidth` | libs/librepcb/common/font/strokefont.cpp:98 | the in-out width of strokeLines: raised to each line's width in turn when that width is larger |
| `StrokeFonts.HorizontalOffset` | libs/librepcb/common/font/strokefont.cpp:67-73 | left gives 0, right gives minus the width, center minus half the width truncated toward zero |
| `StrokeFonts.VerticalOffset` | libs/librepcb/common/font/strokefont.cpp:74-82 | bottom, top and centre vertical offsets of line i of n, with the spacing product truncated to a length |
| `StrokeFonts.LineOffset` | libs/librepcb/common/font/strokefont.cpp:66-82 | the offset `pos` of line i of n: the horizontal offset for the alignment and the total width, and the vertical offset for the line |
| `StrokeFonts.VerticalEnds` | libs/librepcb/common/font/strokefont.cpp:74-77 | bottom puts the last line on the baseline; top hangs the first line one height below it |
| `StrokeFonts.LinesStackDownwards` | libs/librepcb/common/font/strokefont.cpp:74-82 | with non-negative height and spacing, each line sits no higher than the one before, for every vertical alignment |
| `StrokeFonts.PlacedCount` | libs/librepcb/common/font/strokefont.cpp:83-85 | placing the lines neither drops nor adds a path |
| `StrokeFonts.Placed` | libs/librepcb/common/font/strokefont.cpp:65-86 | the paths of the first k lines, each moved by its line's offset, in line order |
| `StrokeFonts.StrokePaths` | libs/librepcb/common/font/strokefont.cpp:59-88 | stroke: the text split at `\n`, each line laid out, placed by its offset within the widest line's width |
| `StrokeFonts.SingleLineBottomLeft` | libs/librepcb/common/font/strokefont.cpp:59-88 | a single bottom-left line is drawn exactly as the line layout gives it |
| `StrokeFonts.PolylineToPath` | libs/librepcb/common/font/strokefont.cpp:175-182 | the loop builds the path `PathOf` defines |
| `StrokeFonts.PolylinesToPaths` | libs/librepcb/common/font/strokefont.cpp:164-173 | the loop builds the paths `PathsOf` defines |
| `StrokeFonts.AppendTranslated` | libs/librepcb/common/font/strokefont.cpp:83-85 | the loop appends each path moved by the offset |
| `StrokeFonts.StrokeFont.constructor` | libs/librepcb/common/font/strokefont.cpp:41-49 | the font starts with its load result and no glyph table built yet |
| `StrokeFonts.StrokeFont.Accessor` | libs/librepcb/common/font/strokefont.cpp:145-162 | the table is built once from the load result and the same table is returned on every call |
| `StrokeFonts.StrokeFont.StrokeGlyph` | libs/librepcb/common/font/strokefont.cpp:126-134 | the glyph's paths from the table |
| `StrokeFonts.StrokeFont.StrokeLine` | libs/librepcb/common/font/strokefont.cpp:103-124 | the line's paths and width as the line layout defines them |
| `StrokeFonts.StrokeFont.StrokeLines` | libs/librepcb/common/font/strokefont.cpp:90-101 | one layout per `\n`-separated line; the width is the largest of its input and the line widths |
| `StrokeFonts.StrokeFont.Stroke` | libs/librepcb/common/font/strokefont.cpp:59-88 | the lines laid out and moved by their alignment offsets, in line order |
| `LffFonts.HeaderEntry` | libs/librepcb/common/font/font.cpp:114-120 | a `#` line is a header exactly when it has two non-empty `:` parts; key = first part trimmed and lower-cased, value = second part trimmed |
| `LffFonts.KeyOfNames` | libs/librepcb/common/font/font.cpp:122-139 | each of the eight known keys is recognised by exactly its own lower-case name |
| `LffFonts.KeyOf` | libs/librepcb/common/font/font.cpp:122-139 | the chain of comparisons of the lower-cased identifier against the eight known keys, anything else unknown |
| `LffFonts.ApplyEntry` | libs/librepcb/common/font/font.cpp:122-139 | spacings become the parsed value, authors and names get it appended, license, encoding and date take it, an unknown key or a non-header changes nothing |
| `LffFonts.Entry` | libs/librepcb/common/font/font.cpp:114-139 | a `#` line is a header when it has at least two `:` parts, read as its key (known or unknown) and its trimmed value; anything else is no header |
| `LffFonts.ApplyHeader` | libs/librepcb/common/font/font.cpp:114-139 | the metadata after one `#` line: the line's header applied, a non-header or an unknown key changing nothing |
| `LffFonts.BodyEnd` | libs/librepcb/common/font/font.cpp:163-167 | a glyph body runs over non-empty lines up to the first empty line or the end of the file |
| `LffFonts.BodyEndUnique` | libs/librepcb/common/font/font.cpp:163-167 | the first empty line (or the end) is the only place where the body can stop |
| `LffFonts.Next` | libs/librepcb/common/font/font.cpp:106-167 | every record consumes at least one line, so reading terminates |
| `LffFonts.Step` | libs/librepcb/common/font/font.cpp:107-173 | one record of the readLFF loop: an empty or unknown line changes nothing, a `#` line applies its header, a `[` line with a code stores its non-empty body |
| `LffFonts.Scan` | libs/librepcb/common/font/font.cpp:106-174 | the readLFF loop: the records of the file applied in order from the given line |
| `LffFonts.GlyphCode` | libs/librepcb/common/font/font.cpp:153-154 | the glyph code is the captured hexadecimal value when it fits 16 bits, and agrees with it modulo 2^16 otherwise (`QChar(int)`) |
| `LffFonts.StepWellFormed` | libs/librepcb/common/font/font.cpp:168-170 | one record stores only non-empty bodies free of empty lines and removes no glyph |
| `LffFonts.ScanWellFormed` | libs/librepcb/common/font/font.cpp:106-174 | the whole read stores only non-empty bodies free of empty lines and removes no glyph |
| `LffFonts.GlyphBlock` | libs/librepcb/common/font/font.cpp:143-171 | a `[` line with a code stores the lines up to the next empty line under that code when there are any, and reading resumes after the empty line |
| `LffFonts.FoldHeadersAppend` | libs/librepcb/common/font/font.cpp:113-140 | applying the headers of a + b is applying a's, then b's |
| `LffFonts.ScanHeaders` | libs/librepcb/common/font/font.cpp:105-140 | the metadata is the file's headers, outside glyph bodies, applied in file order |
| `LffFonts.LastOrAppend` | libs/librepcb/common/font/font.cpp:132-138 | for an overwritten text setting, later headers override earlier ones |
| `LffFonts.LastNumberAppend` | libs/librepcb/common/font/font.cpp:122-127 | for an overwritten number setting, later headers override earlier ones |
| `LffFonts.ApplyEntryCollects` | libs/librepcb/common/font/font.cpp:128-131 | one header appends its value to the authors or the names, or to neither |
| `LffFonts.ApplyEntryFields` | libs/librepcb/common/font/font.cpp:122-139 | one header sets exactly the field of its key; an unknown key or a non-header changes nothing |
| `LffFonts.HeadersAuthors` | libs/librepcb/common/font/font.cpp:128-129 | the authors are every author header's value, in file order |
| `LffFonts.HeadersNames` | libs/librepcb/common/font/font.cpp:130-131 | the names are every name header's value, in file order |
| `LffFonts.HeadersOverwrite` | libs/librepcb/common/font/font.cpp:122-139 | every other setting is its last header's value, or what it was before |
| `LffFonts.ParseVertex` | libs/librepcb/common/font/font.cpp:232-242 | a vertex needs two `,` fields, which give its position; its bulge is the rest of the third field exactly when there are three fields and the third starts with `A`, and no bulge otherwise |
| `LffFonts.Accepted` | libs/librepcb/common/font/font.cpp:228-235 | the vertices kept are at most the parts given |
| `LffFonts.PolygonFrom` | libs/librepcb/common/font/font.cpp:243-248 | no vertex gives the null polygon; otherwise the first vertex is its start and every later one a segment |
| `LffFonts.PolygonFromSegments` | libs/librepcb/common/font/font.cpp:245-247 | segment k ends at accepted vertex k + 1 and carries that vertex's bulge |
| `LffFonts.FirstBulgeDiscarded` | libs/librepcb/common/font/font.cpp:243-249 | the first vertex's bulge never reaches the polygon |
| `LffFonts.StrokeLineEntry` | libs/librepcb/common/font/font.cpp:221-251 | fewer than two `;` parts add nothing; otherwise one entry, the polygon of the accepted vertices |
| `LffFonts.VertexRejected` | libs/librepcb/common/font/font.cpp:234-235 | a part that is not a vertex is dropped from the accepted vertices |
| `LffFonts.VertexAccepted` | libs/librepcb/common/font/font.cpp:243-248 | a vertex is appended to the accepted ones, and starting the polygon with it or adding its segment gives the polygon of the longer prefix |
| `LffFonts.ReadVertex` | libs/librepcb/common/font/font.cpp:232-242 | the fields read from one part are the vertex the part describes, or none |
| `LffFonts.AddVertex` | libs/librepcb/common/font/font.cpp:229-249 | one pass of the loop turns the polygon of the first i parts into that of the first i + 1 |
| `LffFonts.ReadStrokeLine` | libs/librepcb/common/font/font.cpp:221-251 | the vertex loop builds the entry `StrokeLineEntry` defines |
| `LffFonts.FewerUnvisited` | libs/librepcb/common/font/font.cpp:215-216 | a nested build has fewer glyphs left to start, so the recursion is bounded unless it meets a glyph already in progress |
| `LffFonts.Generate` | libs/librepcb/common/font/font.cpp:186-259 | generateLffFont: nothing for a code without raw entry, otherwise its lines built in order and the glyph stored when not empty |
| `LffFonts.Lines` | libs/librepcb/common/font/font.cpp:203-252 | the line loop: a `C` line appends the referenced glyph, building it first when missing, adds nothing for a code without raw entry and diverges on a glyph still being built; a stroke line appends its polygon entry |
| `LffFonts.GenerateAll` | libs/librepcb/common/font/font.cpp:178-184 | generateAllFonts: the glyphs built one after the other, in the order of the keys |
| `LffFonts.GenerateGrows` | libs/librepcb/common/font/font.cpp:186-259 | building keeps every glyph already built and stores only glyphs with entries; a character without a raw entry changes nothing |
| `LffFonts.LinesGrow` | libs/librepcb/common/font/font.cpp:203-258 | the line loop keeps every glyph already built and stores only glyphs with entries |
| `LffFonts.CompositeCodeOf` | libs/librepcb/common/font/font.cpp:211-214 | a `C` line holding a character's code in hexadecimal refers to that character |
| `LffFonts.CompositeCode` | libs/librepcb/common/font/font.cpp:212-214 | the referenced code is the line's hexadecimal value when it fits 16 bits, and agrees with it modulo 2^16 otherwise (`QChar(int)`) |
| `LffFonts.CompositeOfBuilt` | libs/librepcb/common/font/font.cpp:215-218 | a glyph consisting of one reference to a built glyph is a copy of it |
| `LffFonts.CompositeBuildsFirst` | libs/librepcb/common/font/font.cpp:215-218 | a reference to an unbuilt glyph builds that glyph first, then copies it |
| `LffFonts.CompositeOfMissing` | libs/librepcb/common/font/font.cpp:188-191 | a reference to a character without a glyph block contributes nothing |
| `LffFonts.SelfReferenceDiverges` | libs/librepcb/common/font/font.cpp:215-216 | a glyph that refers to itself before it is built never finishes |
| `LffFonts.SortedKeys` | libs/librepcb/common/font/font.cpp:179-183 | the raw table's keys visited in strictly ascending order, each exactly once |
| `LffFonts.Font.constructor` | libs/librepcb/common/font/font.cpp:50-58 | not loaded; spacings 3.0, 6.75 and 1.0; license "unknown"; both tables empty |
| `LffFonts.Font.LoadFont` | libs/librepcb/common/font/font.cpp:68-95 | always succeeds; marks the font loaded; reads the file only the first time (a second call changes nothing) |
| `LffFonts.Font.ReadHeader` | libs/librepcb/common/font/font.cpp:113-140 | the metadata after one `#` line is that header applied |
| `LffFonts.Font.SetHeader` | libs/librepcb/common/font/font.cpp:122-139 | spacings, license, encoding and date are overwritten, authors and names appended to, an unknown key ignored |
| `LffFonts.Font.ReadLff` | libs/librepcb/common/font/font.cpp:97-176 | the metadata and raw table after the loop are the read the file defines, starting from encoding "UTF-8" |
| `LffFonts.Font.ReadRecord` | libs/librepcb/common/font/font.cpp:107-173 | one pass of the loop applies the record at the current line and moves past it |
| `LffFonts.ReadGlyphBody` | libs/librepcb/common/font/font.cpp:162-167 | the inner loop collects the lines up to the first empty one, or the end of the file |
| `LffFonts.Font.GenerateLffFont` | libs/librepcb/common/font/font.cpp:186-259 | succeeds exactly when the build finishes, and then the letter table is the built one |
| `LffFonts.Font.GenerateAllFonts` | libs/librepcb/common/font/font.cpp:178-184 | every raw glyph built in ascending key order; succeeds exactly when all builds finish |
| `LffFonts.OpenFont` | libs/librepcb/common/font/font.h:51-94 | after construction and loading, each getter shows the file: authors and names in file order, every other setting from its last header or its default, and a well-formed raw table |

## Left out

- File I/O: the LFF file is passed in as its lines, and `QFile`/`QTextStream` are not modelled.
- An `encoding` header switches `QTextStream`'s codec for the rest of the file. The model records the value, but it does not change how later lines are decoded.
- StrokeFont's background load (`QtConcurrent::run`, the future watcher and `fontLoaded`) becomes a load result given to the constructor. Thread timing is not modelled.
- Floating point: `toDouble` of coordinates, spacings and bulges is not modelled; the model keeps each number's text. The same goes for `qAtan`, the bulge-to-angle conversion and `Point::fromMm`.
- In `stroke`, `height * lineSpacing` is computed in double precision. The model computes each such product exactly and truncates it to a length where the source converts it.
- Point rotation and mirroring, `GraphicsLayer::getMirroredLayerName`, `vertex2point`, `vertex2angle` and `computeBoundingRect` are library code outside this model. They enter as parameters, so their results are not computed.
- The font library's glyph lookup (fontobene's `getAllPolylinesOfGlyph`) enters as the glyph table. Its µ/Ω replacements, registered by the accessor, are part of that table and are not modelled separately.
- Unicode: white space and lower-casing are modelled on ASCII and Latin-1 white space only. UTF-16 surrogate pairs are not modelled; `QChar(int)` keeps the low 16 bits.
- Strings.ToIntHex: it does not model the leading and trailing white space, sign or `0x` prefix that `QString::toInt` accepts; such text yields 0.
- The S-expression library becomes a record with one entry per child. Its parsing, its token formats and `SExpression::createList` are not modelled.
- Observer notification order follows the `QSet` iteration order, which the source leaves unspecified. The model fixes an order but states only that each observer receives each callback exactly once.
- Diagnostic output (`qWarning`, `qDebug`, `qCritical`) is not modelled.
- The `UndoCommand` base class is modelled only through `Execute`: it runs `performExecute` once and records `wasEverExecuted`. The undo stack is not modelled.
- Plain getters (stroketext.h:91-100, font.h:52-100) are field reads and are not separate members.
- Polygon ownership: LFF glyphs share `Polygon*` objects between a glyph and the glyphs that reuse it, and the model copies values instead. Deleting polygons and aliasing are not modelled.
- The unused `lastBulge` variable of `generateLffFont` is not modelled.
- LffFonts.Font.GenerateLffFont: where a glyph refers back to a glyph still being built, the source recurses until the stack overflows. The model passes the in-progress glyphs along and returns false there, leaving the letter table unspecified on that path.
- Lengths, ratios and angles are unbounded integers. The source holds them in `qint64` (lengths) and `qint32` (ratios, angles), and their overflow is not modelled.
- LibrePCB's `Uuid` class is outside this model. `StrokeTexts.IsUuidText` accepts lower-case canonical 8-4-4-4-12 hexadecimal text and nothing else. It makes no version or variant check and accepts the all-zero text; only a text outside that format is the null UUID.
- StrokeTextCommands.CmdStrokeTextEdit.Rotate, Mirror, PerformExecute, PerformUndo and PerformRedo: they call several setters in a row. Their contracts state the resulting attributes, and state the observer log only for the case where nothing changes; the single-attribute setters state it in every case.
- StrokeTextNodes.RoundTrip: it requires a non-empty layer name, because validity admits an empty layer name that the reader then refuses (`StrokeTextNodes.EmptyLayerNotReadBack`).
