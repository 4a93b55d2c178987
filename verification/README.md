# Pen-plotter text and envelope core, modelled in Dafny

The system drives an AxiDraw pen plotter. It has three layers that the Dafny model covers.

**DualPlotter in image mode** (`DualPlotter`). This is a recorder with the AxiDraw interface. It:
- keeps the pen position;
- keeps two distance accumulators: the total travel, and the pen-down (drawn) length;
- keeps an append-only command log;
- keeps a stroke colour, resolved through a fixed colour table with a black fallback;
- takes a snapshot of the pen and speed options at the first `connect`.

When the session ends, the recorder writes a replay script (`ReplayScript`). That script sends the same moves and colour prompts to a real plotter.

**Stroke-font text layout.** It has three parts:
- `StrokeFont`: the single-stroke font table and the key lookup.
- `TextLayout`:
  - polylines become a `moveto` followed by `lineto`s;
  - every glyph has one uniform advance;
  - words and spaces are measured;
  - `draw_text_line` draws one line;
  - the greedy word wrap of `draw_wrapped_text` breaks the lines.
- `RotatingPlotter`: a proxy that rotates every pen motion about a pivot.

**Envelope writer** (`Envelopes`). It:
- assembles the address lines of a CSV row;
- filters out the rows already marked done;
- marks a recipient's rows done once their envelope is plotted.

Supporting modules:
- `PyStrings`: Python's `strip`, `upper`, `split` and `" ".join`.
- `PyLiteral`: how Python reads back a single-quoted string literal.
- `Plotting`: the shared call and point types, with path and drawn lengths.
- `Seqs`: flattening sequences.
- `Wrappers`: `Option`.

Model choices:
- Coordinates are `real`.
- The Euclidean distance `math.hypot` is a parameter `dist`. Most lemmas assume only `dist(p, p) == 0` and non-negativity. The two rotation lemmas, RotationKeepsInk and RotatedTextKeepsInk, also assume `Unturned(dist, r)`: rotation does not change the distance between two points.
- Float formatting (`round(x, 3)` and `repr`) is a pair of parameters (`ReplayScript.Numerals`). The read-back lemmas make assumptions only about the values a script actually prints. Each printed coordinate parses back to itself and holds no `,` or `)`. Each printed option parses back to the recorded value. When the log has a colour change, `parse("0.0")` is `0.0`.
- The cosine and sine of the rotation angle are given reals.
- The glyph pen is a parameter of the text layout. The program's pen is `TextLayout.PenOf(StrokeFont.GlyphFor)`.
- Python's `round` to an integer is modelled exactly, as round-half-to-even on reals.

## Model

| member | source | states |
|---|---|---|
| DualPlotter.RgbForName | dual_plotter.py:158-163 | the result is always a table colour: the entry of the stripped, upper-cased name when there is one, black for an unknown name or a non-string |
| DualPlotter.RgbIgnoresCaseAndPadding | dual_plotter.py:162-163 | names equal up to ASCII case, with any surrounding whitespace, resolve to the same colour |
| DualPlotter.CanonicalIsFixed | dual_plotter.py:162 | an upper-case name with no surrounding whitespace is unchanged by `strip().upper()` |
| DualPlotter.UnknownColorIsBlack | dual_plotter.py:163 | an unknown name ("TEAL") resolves to the same RGB as "BLACK", namely (0, 0, 0) |
| DualPlotter.NonStringIsBlack | dual_plotter.py:160-161 | a non-string argument resolves to the same RGB as "BLACK" |
| DualPlotter.PurpleResolves | dual_plotter.py:60-72 | "PURPLE" resolves to (128, 0, 128) from the table |
| DualPlotter.PaddedLowerCaseResolves | dual_plotter.py:162-163 | " purple\n" resolves to the PURPLE entry |
| DualPlotter.RoundHalfEven | dual_plotter.py:100-101 | Python's `round` lands within one half of its argument and picks the even integer on a tie |
| DualPlotter.RoundMonotone | dual_plotter.py:148-149 | rounding never reverses the order of two values |
| DualPlotter.ScaleMonotone | dual_plotter.py:148-149 | with a non-negative resolution, converting inches to pixels keeps their order |
| DualPlotter.RoundOfInt | dual_plotter.py:100-101 | rounding an integer gives it back |
| DualPlotter.CanvasExtent | dual_plotter.py:98-101 | a canvas side is at least one pixel, exactly one for an empty or inverted box or one under half a pixel, otherwise within half a pixel of its size times the dpi |
| DualPlotter.TruncInt | dual_plotter.py:88-89 | Python's `int()` of a number truncates toward zero: the result is within one of the argument, never above it for a non-negative argument and never below it for a negative one |
| DualPlotter.MakePage | dual_plotter.py:80-97 | the constructor keeps the bounding box and truncates the resolution and line width to integers |
| DualPlotter.DpiTruncates | dual_plotter.py:88 | a resolution of 150.7 becomes 150 and sizes a one-inch canvas at 150 pixels; -2.5 becomes -2 |
| DualPlotter.DefaultPageIsMade | dual_plotter.py:79-81 | the constructor's default arguments (the A4 box, 100 dpi, one-pixel lines) build the default page |
| DualPlotter.Width | dual_plotter.py:100 | the canvas width is at least one pixel |
| DualPlotter.Height | dual_plotter.py:101 | the canvas height is at least one pixel |
| DualPlotter.ToPx | dual_plotter.py:146-150 | the top-left page corner (xmin, ymax) maps to pixel (0, 0); on a page at least one pixel across each way, the bottom-right corner (xmax, ymin) maps to (W, H) |
| DualPlotter.PixelCorners | dual_plotter.py:146-150 | the page edges xmin and ymax map to pixel 0; on a page at least one pixel across, xmax and ymin map to W and H |
| DualPlotter.ToPxFlipsY | dual_plotter.py:147-149 | a point higher on the page gets a smaller or equal pixel row and the same column |
| DualPlotter.ToPxMonotoneX | dual_plotter.py:148 | a point further right gets a larger or equal pixel column |
| DualPlotter.NewSession | dual_plotter.py:86-125 | a fresh recorder has no position, zero travel and drawn length, an empty log, no snapshot, black ink and the default options 70/20/25/60/30 |
| DualPlotter.NewSessionValid | dual_plotter.py:90-108 | a fresh recorder satisfies the session invariant |
| DualPlotter.Interactive | dual_plotter.py:241-242 | `interactive()` only sets its flag: the page, position, travel, drawn length, log, stroke colour, options and snapshot are all unchanged |
| DualPlotter.WithOptions | dual_plotter.py:27-33 | assigning options replaces them and changes nothing else: not the snapshot, log, page, position, accumulators, stroke colour or flag |
| DualPlotter.Connect | dual_plotter.py:244-250 | `connect` always returns true and takes the snapshot from the current options only when none exists; the page, position, travel, drawn length, log, stroke colour, options and flag are unchanged |
| DualPlotter.SnapshotTakenOnce | dual_plotter.py:247-249 | whatever the options are changed to and however often `connect` runs again, the first snapshot stays |
| DualPlotter.PenMoveTo | dual_plotter.py:252-264 | `moveto` sets the position, logs itself and adds the distance from the previous position to the travel (nothing when there was none); the drawn length and the settings are unchanged |
| DualPlotter.PenLineTo | dual_plotter.py:267-294 | a first `lineto` only sets the position and logs itself; a later one adds the same segment length to travel and drawn length, so travel minus drawn length is unchanged |
| DualPlotter.ConfirmColorChange | dual_plotter.py:298-327 | a colour change logs exactly a park move to (0, 0) and then the name verbatim, leaves the pen at the origin, travels like `moveto(0, 0)`, draws nothing and takes the resolved RGB as the stroke colour |
| DualPlotter.Apply | dual_plotter.py:252-327 | every call appends its log entries and leaves the pen at its target |
| DualPlotter.RunLogsMotion | dual_plotter.py:264-291 | pen motions are logged verbatim and in order, the pen ends at the last target, and the settings are unchanged |
| DualPlotter.RunLogs | dual_plotter.py:252-327 | a run's log is the old log followed by each call's entries, in call order |
| DualPlotter.ApplyPreservesValid | dual_plotter.py:279-281 | under a non-negative distance, each call keeps the invariant: 0 ≤ drawn ≤ travel, no travel before a first position, the position is the log's last target, every colour entry follows a park move, and the stroke RGB is the one its name resolves to |
| DualPlotter.RunPreservesValid | dual_plotter.py:252-327 | any sequence of calls keeps the invariant |
| DualPlotter.ReachableValid | dual_plotter.py:93-94 | every session that pen calls reach from a fresh one is valid; in particular its drawn length never exceeds its travel |
| DualPlotter.SetupKeepsValid | dual_plotter.py:236-250 | `interactive()`, `connect()` and an options assignment each keep a valid session valid |
| DualPlotter.DriveKeepsValid | dual_plotter.py:236-281 | any interleaving of `interactive()`, `connect()`, options assignments and pen calls keeps a valid session valid |
| DualPlotter.DrivenValid | write_envelopes.py:84-90 | every session a caller reaches from a fresh one by that interleaving, as the envelope writer does, is valid, with drawn length at most the travel |
| DualPlotter.OpeningSnapshotsDefaults | write_envelopes.py:84-86 | after the writer's `interactive()` then `connect()`, the pen is unplaced with nothing logged or measured, and the snapshot holds the default options |
| DualPlotter.ApplyAccumulates | dual_plotter.py:255-281 | one call adds the distance to its target to the travel, and to the drawn length only for a `lineto` |
| DualPlotter.MeasuresSnoc | dual_plotter.py:255-281 | one more call lengthens the waypoint path by the step from the last stop, and the inked length by it only for a line |
| DualPlotter.MeasureStep | dual_plotter.py:255-281 | if the accumulators equal the path measures of the calls so far, they still do after one more call |
| DualPlotter.RunMeasuresPath | dual_plotter.py:92-94 | from a fresh session, travel is the length of the path through all stops, drawn length is the total length of the `lineto` segments, and the position is the last stop |
| DualPlotter.RunMeasuresFrom | dual_plotter.py:252-294 | the same path characterisation from any session with no position and zero accumulators |
| DualPlotter.OutlineCalls | dual_plotter.py:329-342 | `outlinePage` moves to (xmin,ymin), (xmin,ymax), (xmax,ymax), (xmax,ymin) and back to (xmin,ymin): five moves, or nine calls with a dot at each of the first four corners |
| DualPlotter.OutlinePage | dual_plotter.py:329-342 | the outline's calls are logged in order and the pen ends at (xmin, ymin), settings unchanged |
| DualPlotter.DotIsFree | dual_plotter.py:331-332 | a corner visit with a dot gives the same position, travel and drawn length as one without |
| DualPlotter.OutlineDotsAreFree | dual_plotter.py:329-342 | with or without dots the outline travels the same distance and draws nothing |
| DualPlotter.RunRespectsTally | dual_plotter.py:252-294 | what calls add to position, travel and drawn length depends only on those three values at the start |
| DualPlotter.MovesDrawNothing | dual_plotter.py:252-264 | pen-up moves never add to the drawn length |
| DualPlotter.ReplayLogOf | dual_plotter.py:307-327 | re-issuing one call's log entries measures what the call did; the colour change's park move is re-issued as a move |
| DualPlotter.RerunLog | dual_plotter.py:252-327 | re-issuing a recorded log measures the same position, travel and drawn length as the calls that wrote it |
| ReplayScript.Header | dual_plotter.py:174-191 | the preamble before the body is always eighteen lines, whatever the options |
| ReplayScript.ScriptLines | dual_plotter.py:173-226 | a script has at least the 18 header, one body and 5 footer lines |
| ReplayScript.ScriptFrame | dual_plotter.py:192-226 | the header and footer always surround the body; the placeholder comment appears exactly when the log is empty; a leading `lineto` becomes a synthesised `moveto` to its rounded point |
| ReplayScript.WriteReplayScript | dual_plotter.py:167-172 | writing takes the options snapshot only if there is none, and changes nothing else in the session |
| ReplayScript.ScriptUsesFirstConnectOptions | dual_plotter.py:169-172 | after a first `connect`, the script records that moment's options, whatever is changed or reconnected later |
| ReplayScript.ReadMotionLine | dual_plotter.py:205-210 | if both printed coordinates parse back, a written `moveto`/`lineto` line reads back as that motion at the rounded coordinates |
| ReplayScript.ReadParkLine | dual_plotter.py:214 | the park line reads back as a move to the origin |
| ReplayScript.CommentsAreComments | dual_plotter.py:193-213 | the placeholder, introduction and colour comments are all comment lines |
| ReplayScript.PromptBodyDecodes | dual_plotter.py:216-217 | the prompt literal, after quote escaping, decodes to the message around the original name |
| ReplayScript.PromptLineShape | dual_plotter.py:217 | a prompt line is an `input('…')` call around the escaped message, and no other kind of script line |
| ReplayScript.ReadPromptLine | dual_plotter.py:216-217 | a prompt line reads back as a pause for exactly the requested colour name |
| ReplayScript.ReadColorEntry | dual_plotter.py:211-217 | a colour entry's three lines read back as the park move followed by the prompt |
| ReplayScript.ReadMotionEntry | dual_plotter.py:205-210 | if both printed coordinates parse back, a recorded motion's line reads back as its rounded motion |
| ReplayScript.ReadEntry | dual_plotter.py:204-217 | if the entry's printed numbers parse back and its colour name is escapable, the entry's lines read back as its steps |
| ReplayScript.ReadEntries | dual_plotter.py:204-217 | if every entry reads back, the entries' lines read back as their steps, in log order |
| ReplayScript.ReadInsertedStart | dual_plotter.py:195-202 | if the start point's printed coordinates parse back, the introduction plus the synthesised start line read back as one move to the rounded point |
| ReplayScript.ReadBody | dual_plotter.py:192-220 | if every entry reads back, the whole body reads back as exactly the steps the script performs |
| ReplayScript.ReadOptionLine | dual_plotter.py:182-186 | if the printed option value parses back, its option line reads back as the recorded value |
| ReplayScript.ScriptReadsBack | dual_plotter.py:167-226 | when every number the script prints parses back and no colour name holds a backslash or a line break, reading a written script gives back the recorded options and the steps of the log: writing and reading are inverse |
| ReplayScript.EntryStepCalls | dual_plotter.py:204-217 | with unrounded coordinates, an entry replays as the logged motion, and a colour entry replays as a park move |
| ReplayScript.ReplayEntry | dual_plotter.py:204-217 | replaying one entry measures what recording it did |
| ReplayScript.ReplayEntries | dual_plotter.py:204-220 | replaying the entries measures what recording them did |
| ReplayScript.InsertedMoveTalliesAlike | dual_plotter.py:199-202 | with no position yet, the synthesised `moveto` measures the same as the leading `lineto` it replaces |
| ReplayScript.ReplayScriptSteps | dual_plotter.py:192-220 | from a session with no position, the script's steps measure the same as the recorded log |
| ReplayScript.ReplayReproducesRun | dual_plotter.py:192-220 | on a fresh session, replaying the script gives the position, travel and drawn length of the original calls whenever three-place rounding changes no coordinate |
| PyLiteral.EscapeQuotes | dual_plotter.py:216 | escaping only lengthens the name, puts a backslash before every quote, and leaves a quote-free name as it is |
| PyLiteral.DecodeEscaped | dual_plotter.py:216 | for names without backslash or line break, Python's literal reading undoes the quote escaping |
| PyLiteral.DecodeAround | dual_plotter.py:217 | the escaped name inside the plain prompt text decodes to the text around the original name |
| PyLiteral.BackslashNameGarbled | dual_plotter.py:216 | a name holding `\b` is not escaped and reads back as a backspace character |
| PyLiteral.BackslashQuoteNameBreaksLiteral | dual_plotter.py:216 | a name ending in a backslash and a quote produces a literal Python cannot read |
| PyStrings.Strip | dual_plotter.py:162 | `strip()` leaves no whitespace at either end |
| PyStrings.StripIsInfix | write_envelopes.py:41 | `strip()` keeps a contiguous piece of its argument and removes only whitespace around it |
| PyStrings.StripIgnoresPadding | write_envelopes.py:41 | surrounding whitespace never changes what `strip()` returns |
| PyStrings.StripOfStripped | write_envelopes.py:41 | a string with no surrounding whitespace is its own `strip()` |
| PyStrings.Upper | dual_plotter.py:162 | `upper()` keeps the length, turns each ASCII lower-case letter into its capital, keeps every other character, and leaves no ASCII lower-case letter |
| PyStrings.UpperIdempotent | dual_plotter.py:162 | upper-casing twice equals upper-casing once |
| PyStrings.StripUpperIgnoresCase | dual_plotter.py:162 | `s.strip().upper()` does not depend on the ASCII case of `s` |
| PyStrings.Split | dual_text_lib.py:400 | `split()` yields whitespace-free non-empty words, and none exactly for blank text |
| PyStrings.SplitInterleave | dual_text_lib.py:400 | words laid out with any whitespace padding at both ends and any non-empty whitespace between them split back into exactly those words |
| PyStrings.SplitGaps | dual_text_lib.py:400 | every text is its split words laid out between whitespace gaps, with padding at both ends and a non-empty gap between two words |
| PyStrings.SplitSpec | dual_text_lib.py:400 | `split()` returns the maximal runs of non-whitespace: a list of words is the split of a text exactly when the text is those words laid out between whitespace gaps |
| PyStrings.SplitJoin | dual_text_lib.py:416 | splitting words joined by single spaces gives the words back |
| StrokeFont.GlyphFor | dual_text_lib.py:336 | a font key gets its table glyph, any other key the `'?'` glyph |
| StrokeFont.GlyphKey | dual_text_lib.py:365 | `ch.lower()` maps A–Z to a–z, and maps exactly the space to the space |
| StrokeFont.FontKeysAreLowerCase | dual_text_lib.py:92-275 | every key of the font already looks up as itself |
| StrokeFont.SpaceDrawsNothing | dual_text_lib.py:273-274 | the space glyph is 0.35 em wide and has no strokes |
| StrokeFont.LookupExamples | dual_text_lib.py:336-365 | capitals draw their lower-case glyph, the Kelvin sign draws 'k', É draws é, and '@' draws '?' |
| TextLayout.PolylineShape | dual_text_lib.py:277-285 | one call per point: a move to the first scaled point, then one line to each later scaled point, in order; nothing for an empty polyline |
| TextLayout.PolylineTrace | dual_text_lib.py:277-285 | the pen stops at the placed points, and the ink is the length of the placed polyline |
| TextLayout.StrokesVisitPoints | dual_text_lib.py:341-342 | drawing the strokes visits every stroke point, placed, in drawing order, with motions only |
| TextLayout.DrawGlyph | dual_text_lib.py:331-344 | the advance is 0.6 × height plus tracking, whatever the character |
| TextLayout.GlyphVisitsPoints | dual_text_lib.py:336-342 | a glyph's pen stops are its points, scaled to 0.6h × h at the origin given |
| TextLayout.UnknownDrawnAsQuestionMark | dual_text_lib.py:336 | a character outside the font is drawn exactly like '?' |
| TextLayout.PenIgnoresTracking | dual_text_lib.py:341-344 | tracking changes only the advance of `draw_glyph`, never its strokes |
| TextLayout.PenOfMovesOnly | dual_text_lib.py:277-285 | a glyph pen in any font issues only moves and lines |
| TextLayout.TextLineOnlyMotion | dual_text_lib.py:363-374 | a text line issues only moves and lines |
| TextLayout.GlyphAdvanceIsReported | dual_text_lib.py:372-374 | the cursor moves by exactly the advance `draw_glyph` returns |
| TextLayout.TextAdvanceAppend | dual_text_lib.py:363-374 | the cursor advance of a concatenation is the sum of the parts' advances |
| TextLayout.DrawTextLineAppend | dual_text_lib.py:363-374 | drawing `a + b` draws `a`, then `b` from where the cursor stopped |
| TextLayout.SpaceUnderOverride | dual_text_lib.py:368-370 | with a word-spacing override, a space draws nothing |
| TextLayout.SpaceDrawnAsMeasured | dual_text_lib.py:310-320 | a drawn space advances exactly `space_advance_inches`, with or without an override |
| TextLayout.WordDrawnAsMeasured | dual_text_lib.py:322-327 | a word with no space advances exactly `measure_word_width_inches`, zero for the empty word |
| TextLayout.LineMeasureSnoc | dual_text_lib.py:409-423 | adding a word to a line adds its width, plus one space unless the line was empty |
| TextLayout.LineMeasureScales | dual_text_lib.py:357-361 | a line's measured width scales linearly with the height |
| TextLayout.LineDrawnAsMeasured | dual_text_lib.py:363-374 | drawing space-free words joined by spaces advances exactly their measured line width |
| TextLayout.WrapStepKeepsInv | dual_text_lib.py:408-423 | one wrap iteration keeps finished lines non-empty, in budget or single-word, and full, and keeps the running width equal to the current line's measure |
| TextLayout.WrapFromKeepsInv | dual_text_lib.py:408-423 | the whole loop keeps that invariant, and once a word is seen the current line is non-empty |
| TextLayout.WrapStepContent | dual_text_lib.py:415-423 | one iteration places the word after every word placed so far |
| TextLayout.WrapFromContent | dual_text_lib.py:408-423 | the loop places exactly the words, in order |
| TextLayout.CloseContent | dual_text_lib.py:425-426 | closing the last line keeps every placed word |
| TextLayout.CloseShape | dual_text_lib.py:425-426 | closing keeps every line non-empty and fitting, and every line full against the next one's first word |
| TextLayout.WrapSpec | dual_text_lib.py:404-426 | the lines' words are exactly the words in order, there are no lines exactly when there are no words, each line is non-empty and within 0.6 × max width unless it is one word, and each line would overflow had it taken the next line's first word |
| TextLayout.LineCallsAt | dual_text_lib.py:429-443 | line `i` is drawn on its own on baseline `y + i × spacing` |
| TextLayout.DrawLinesBaselines | dual_text_lib.py:429-443 | the block is its lines drawn one after another in order |
| TextLayout.DrawLinesOnlyMotion | dual_text_lib.py:432-443 | the block issues only moves and lines |
| TextLayout.DrawWrappedText | dual_text_lib.py:400-445 | blank text draws nothing and returns None; any other text returns a line count of at least one |
| TextLayout.WrappedTextLayout | dual_text_lib.py:396-445 | for non-blank text, the lines are the wrap of `split()` (which does not depend on the font scale), each drawn at the origin one scaled spacing below the previous one, and their count is returned |
| TextLayout.WrappedTextOnlyMotion | dual_text_lib.py:377-445 | wrapped text issues only moves and lines |
| TextLayout.WrappedLineWidth | dual_text_lib.py:391-393 | each wrapped line, drawn at font scale s, spans s times its unscaled measured width |
| TextLayout.WrappedWordsHaveNoSpace | dual_text_lib.py:400 | the words of every wrapped line contain no space |
| TextLayout.ScaledLineWidth | dual_text_lib.py:357-361 | a line of space-free words, drawn at scale s, spans s times its measured width |
| TextLayout.MeasureScales | dual_text_lib.py:357-361 | measuring at the scaled height is the scale times measuring at the base height |
| TextLayout.UntrackedGlyphAdvance | dual_text_lib.py:331-344 | with the default `tracking_in=0.0` a glyph advances exactly 0.6 of its height |
| TextLayout.DefaultLineAdvance | dual_text_lib.py:346-374 | with the default letter spacing 0.12, no word spacing and scale 1, as the envelope writer calls it, every character moves the cursor by 0.72 of the height, so 0.36 inches at the default height 0.5 |
| TextLayout.LineMeasureJoined | dual_text_lib.py:408-423 | without a word-spacing override, a line measures its `" ".join` length times the glyph advance |
| TextLayout.DefaultWrap | dual_text_lib.py:377-415 | with the defaults (height 0.6, width 5.0, letter spacing 0.12, no word or line spacing given), baselines are 0.9 inches apart and a line of several words is at most six characters once joined |
| RotatingPlotter.PivotFixed | dual_text_lib.py:20-25 | the pivot maps to itself |
| RotatingPlotter.RotateBack | dual_text_lib.py:20-25 | rotating back by the opposite angle restores every point |
| RotatingPlotter.RotationKeepsDistance | dual_text_lib.py:20-25 | rotation keeps squared distances between points |
| RotatingPlotter.RotateCallsShape | dual_text_lib.py:28-38 | exactly one call is forwarded per call made, of the same kind, in the same order, with moves and lines at the rotated point |
| RotatingPlotter.RotateCallBack | dual_text_lib.py:28-34 | forwarding one call through the opposite rotation gives it back |
| RotatingPlotter.RotateCallsBack | dual_text_lib.py:28-34 | forwarding through the opposite rotation gives back the original calls |
| RotatingPlotter.RotationKeepsInk | dual_text_lib.py:28-34 | for any distance that rotation leaves unchanged (`Unturned`), rotated motion inks as much as the original |
| RotatingPlotter.DrawWrappedTextRotated | dual_text_lib.py:41-54 | rotated wrapped text returns the same line count as unrotated text |
| RotatingPlotter.RotatedTextTurnsBack | dual_text_lib.py:41-54 | turning the rotated drawing back by the opposite angle gives exactly the unrotated drawing |
| RotatingPlotter.RotatedTextKeepsInk | dual_text_lib.py:41-54 | for any distance that rotation leaves unchanged (`Unturned`), rotated text inks as much as unrotated text |
| Envelopes.NonEmpty | write_envelopes.py:42-49 | the kept strings are exactly the non-empty ones |
| Envelopes.Assemble | write_envelopes.py:40-58 | at most four lines, none empty |
| Envelopes.BuildAddressLines | write_envelopes.py:38-58 | an address has at most four lines, none empty |
| Envelopes.AddressLinesStripped | write_envelopes.py:41-57 | no address line has surrounding whitespace |
| Envelopes.AssembledFrom | write_envelopes.py:40-57 | every line is one of the fields, or city and zip joined by a space when both are present |
| Envelopes.AssembleInOrder | write_envelopes.py:40-58 | the lines are name, address, line 2, then the city/zip line, with empty ones dropped |
| Envelopes.AddressLinesInOrder | write_envelopes.py:38-58 | the row's stripped fields appear in that order, with empty ones dropped |
| Envelopes.CityAndZipShareLine | write_envelopes.py:52-53 | when both city and zip are present, the last line is "city zip" joined by one space |
| Envelopes.CityOrZipAlone | write_envelopes.py:54-57 | when only one of city and zip is present it is the last line; with neither there are only the first three fields |
| Envelopes.NameComesFirst | write_envelopes.py:41-43 | a non-empty name is always the first line |
| Envelopes.Todo | write_envelopes.py:66 | the to-do list is never longer than the rows |
| Envelopes.TodoAppend | write_envelopes.py:66 | the filter distributes over concatenation, so order is kept |
| Envelopes.TodoMembers | write_envelopes.py:66 | a row is kept exactly when it is one of the rows and its Done cell is not "TRUE" |
| Envelopes.DoneCountCountsDone | write_envelopes.py:67 | the total minus the to-do count equals the number of rows marked done |
| Envelopes.TodoIdempotent | write_envelopes.py:66 | filtering twice changes nothing |
| Envelopes.TodoKeepsUndone | write_envelopes.py:66 | rows none of which is done pass through unchanged |
| Envelopes.DoneIgnoresCaseAndPadding | write_envelopes.py:66 | "true" in any ASCII case, padded with whitespace, counts as done |
| Envelopes.MarkDone | write_envelopes.py:29-31 | marking keeps the number of rows |
| Envelopes.MarkDoneNeedsNames | write_envelopes.py:30 | marking fails exactly when some row has no Name column |
| Envelopes.MarkDoneRows | write_envelopes.py:29-31 | a row with a matching stripped name gets Done = "TRUE" and keeps every other field; every other row is unchanged |
| Envelopes.MarkedRowIsDone | write_envelopes.py:30-31 | a marked row keeps its name and is done; an unmatched row keeps its done status |
| Envelopes.MarkDoneIdempotent | write_envelopes.py:29-31 | marking the same name twice equals marking it once |
| Envelopes.MarkDoneLeavesTodo | write_envelopes.py:29-31 | afterwards the rows still to do are the earlier ones less that recipient's |
| Envelopes.PlottedEnvelopeIsDone | write_envelopes.py:26-31 | marking a row's own stripped name leaves that row done |

## Left out

- Device mode is left out. This covers the `pyaxidraw` passthrough, `_apply_options` and the device branches of every call. These are calls into a library the model cannot see.
- Pillow raster drawing, the image flip and save, and `os.system("open …")` are left out. Only the pixel arithmetic of `_to_px` is kept.
- Disk writes and console output are left out. This covers the replay script's file write, its `"\n".join`, the printed metrics and messages, and the session timestamp. The model produces the list of lines.
- Interactive input is left out: the device-mode `input()` prompt and its `KeyboardInterrupt` handling.
- Float formatting is a parameter, not Python's float semantics. This covers `round(x, 3)`, `repr` and the `{opts[...]}` printing. The read-back lemmas assume only that each value a script prints reads back as itself, and that `"0.0"` reads as `0.0` when a colour change is logged.
- `math.hypot` is a distance parameter.
- Trigonometry is left out: the rotation proxy takes the cosine and sine as given. The angle's `% 360` and the degree-to-radian conversion are not modelled.
- `_RotatingPlotter.__getattr__` delegation is not modelled beyond passing colour changes through unchanged.
- The line-counter file helpers (`_read_int_from_file`, `read_line_count`, `increment_line_count`) are left out. They are disabled file-backed state.
- The first `draw_glyph` and the first `'w'` glyph are not modelled, because Python keeps only the later definitions. The font table holds the later `'w'`, at the first key position.
- CSV loading and writing, `play_sound` and the main loop of `write_envelopes.py` are left out. The model keeps the row update, the to-do filter and the address lines. This covers the test preview, the per-envelope drawing at fixed offsets, the `"?"` default name and the waits between envelopes.
- `DictWriter` raising `ValueError` when the header has no Done column is not modelled. Neither are the `None` cells of short CSV rows.
- The "Unrecognized event" branch of the script writer is not modelled: the log only ever holds `moveto`, `lineto` and colour entries.
- PyStrings.Upper and DualPlotter.RgbForName: `upper()` is modelled for ASCII letters only; other characters are kept. This is exact for the comparisons the program makes. Every non-ASCII character whose `upper()` is pure ASCII gives a result containing I, S or F: 'ı' gives "I", 'ſ' gives "S", 'ß' gives "SS", and the ligatures give "FF", "FI", "FL", "FFI", "FFL" or "ST". Neither "TRUE" nor any colour name contains those letters.
- StrokeFont.GlyphKey: `ch.lower()` is modelled character to character. The few characters that lower to two characters (such as 'İ') are treated as not in the font. They do draw as '?', because no two-character key exists.
- PyLiteral.DecodeEscaped and ReplayScript.ScriptReadsBack hold only for colour names without a backslash or a line break. The writer escapes quotes only, so other names do not survive the round trip (see BackslashNameGarbled and BackslashQuoteNameBreaksLiteral). The script calls this escaping "basic quote safety", so this is documented behaviour, not listed as a finding.
- Envelopes.MarkDone: the `KeyError` for a row without a Name column is modelled as `None`, meaning nothing is written.
- ReplayScript.ReplayReproducesRun assumes that three-place rounding changes no recorded coordinate. Otherwise the replay follows the rounded path, and the model has no float arithmetic to bound the difference.
