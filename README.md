# A Dafny model of KiCad's geometry, plotting, Gerber and rule-resolution core

This project gives a Dafny model of a set of small KiCad parts and proves properties of that model:

- **EDA_RECT and EDA_ITEM::Replace** (`common/base_struct.cpp`). A rectangle is stored as an origin, a signed size and an "initialised" flag. The model covers normalising, containment, intersection, the common part, the closest point, inflating, merging, and find-and-replace on an item's text.
- **The footprint history list** (`pcbnew/load_select_footprint.cpp`). This is the list of the last footprints loaded, with at most 8 entries and the newest first.
- **The RS-274D part of GerbView** (`gerbview/rs274d.cpp`). GERBER_FILE_IMAGE is a class whose fields the G and D commands update.
  - Every command is specified by a pure step function on a value snapshot of those fields.
  - Lemmas about those step functions state what the commands do: select tools, set modes, enter and close regions, draw, move and flash.
- **The Gerber plotter** (`common/plotters/GERBER_plotter.cpp`) and **the APERTURE record** (`include/plotter.h`). These cover the aperture table and its lookup, line-width selection, pen moves, rectangle outlines and regular-polygon flashes.
- **The Gerber job file writer** (`pcbnew/exporters/gerber_jobfile_writer.cpp`). This covers JSON escaping of UTF-32 text, the silk-screen and solder-mask side flags, separator removal, and the file function attributes of each layer.
- **The footprint status bits** (`pcbnew/class_module.h`). These are the locked, placed, to-place and pads-locked bits of m_ModuleStatus, plus the net-tie keyword test. IsFlipped is modelled as a predicate.
- **The push-and-shove router's rule resolver** (`pcbnew/router/pns_kicad_iface.cpp`). This covers the net and pad clearance caches, clearances, hole-to-hole collisions, and recognising differential-pair net names and finding their partners.
- **The schematic screen list** (`eeschema/sch_screen.cpp`). This covers the reference count of a screen, the SCH_SCREENS list and its iteration, marker counting, renaming a symbol library nickname, and the test for symbols without fully defined library ids.
- **The stroke font** (`common/gal/stroke_font.cpp`). This covers decoding the Hershey glyph strings and measuring a text's width and line count.
- **ZONE_CONTAINER** (`pcbnew/class_zone.cpp`). This covers unfilling, the layer set, the corner radius, pad-dependent thermal settings, clearance, the bounding box, mirroring and appending corners.

Modules: `Geom` (points, sizes, C integer division), `Layers` (layer ids), `Wrappers` (Option), and one module per source file.

Integers are unbounded. One place depends on C's 32-bit `int`: the zone bounding-box size (`Zone.Span`). It and `Geom.Wrap32` say where that matters.

Several values come from code that is not part of this model, and enter as parameters:
- the trigonometry of the arc code (ArcTangente, RotatePoint, the arc chord count);
- the glyph advances of the stroke font;
- the connectivity data of the router.

## Model

| member | source | states |
|---|---|---|
| BaseStruct.Normalized | common/base_struct.cpp:286-299 | both sizes become non-negative, the covered corners and the init flag are kept |
| BaseStruct.NormalizedCoversSame | common/base_struct.cpp:286-299 | normalising keeps the covered point set, is idempotent, and moves the origin to the lower corner |
| BaseStruct.Contains | common/base_struct.cpp:308-326 | true iff the point lies in the closed box, every edge inclusive, whatever the signs of the size |
| BaseStruct.ContainsRect | common/base_struct.cpp:329-332 | true iff the other rectangle's origin and end are both inside |
| BaseStruct.ContainsRectCoversAll | common/base_struct.cpp:329-332 | containing both corners means containing every point of the other rectangle |
| BaseStruct.Intersects | common/base_struct.cpp:361-389 | an uninitialised rectangle intersects nothing |
| BaseStruct.IntersectsIsOverlap | common/base_struct.cpp:361-389 | a reported intersection is an overlap of the closed extents; when the other height is not negative the test is exactly the overlap |
| BaseStruct.IntersectsQuirkExample | common/base_struct.cpp:378 | the top edge is taken from the other rectangle's un-normalised origin: two overlapping rectangles are reported as disjoint |
| BaseStruct.ClosestPointTo | common/base_struct.cpp:500-510 | the result lies in the rectangle, is the point itself when that is inside, and is per axis the nearest point of the rectangle |
| BaseStruct.Common | common/base_struct.cpp:698-718 | rectangles that do not intersect give a default rectangle |
| BaseStruct.CommonInBoth | common/base_struct.cpp:698-718 | the common part of intersecting rectangles is contained in both |
| BaseStruct.CommonIsIntersection | common/base_struct.cpp:698-718 | a point is in the common part iff it is in both rectangles |
| BaseStruct.InflateAxisExtent | common/base_struct.cpp:575-640 | intended Inflate per axis: the sign of the size is kept; a valid inflate moves both ends of the covered interval out by d; an over-deflate collapses to a point inside the old interval |
| BaseStruct.InflateAsWrittenAgreesOnPositive | common/base_struct.cpp:577-591 | for a non-negative size the x and y branches as written agree with the intended behaviour |
| BaseStruct.InflateXGuardCounterexample | common/base_struct.cpp:592-606 | width -10 inflated by 6 collapses to 0 as written instead of growing to -22; deflated by 6 it turns positive |
| BaseStruct.InflateCollapseCounterexample | common/base_struct.cpp:623-630 | a negative height that collapses puts the origin outside the old rectangle |
| BaseStruct.EdaRect.constructor | common/base_struct.cpp:700 | a new rectangle is the default one: zero origin and size, not initialised |
| BaseStruct.EdaRect.Normalize | common/base_struct.cpp:286-299 | the sizes become non-negative and the covered corners are unchanged |
| BaseStruct.EdaRect.Inflate | common/base_struct.cpp:575-640 | each axis becomes the intended per-axis inflate of the old origin and size; the init flag is kept |
| BaseStruct.EdaRect.MergeRect | common/base_struct.cpp:643-668 | an uninitialised rectangle takes the other one when that is valid; otherwise the result is normalised, with corners the min and max of both |
| BaseStruct.EdaRect.MergePoint | common/base_struct.cpp:671-689 | an uninitialised rectangle becomes the point with size 0; otherwise the result is normalised and grown to the point |
| BaseStruct.EdaRect.SetEnd | common/base_struct.cpp:659-667 | the origin is kept, the end becomes the given point, and the rectangle is initialised |
| BaseStruct.MergeCoversBoth | common/base_struct.cpp:643-689 | the merged box contains every point of both inputs, and both rectangles |
| BaseStruct.FindFirst | common/base_struct.cpp:187-192 | the first index where the pattern occurs, or None when it occurs nowhere |
| BaseStruct.Replace | common/base_struct.cpp:183-207 | found iff the pattern occurs; otherwise the text is unchanged; otherwise the first occurrence is replaced and prefix and suffix are kept |
| FootprintHistory.Without | pcbnew/load_select_footprint.cpp:68-72 | the name is absent afterwards, nothing new appears, and the list does not grow |
| FootprintHistory.HistoryFront | pcbnew/load_select_footprint.cpp:65-79 | after adding, the name is first and occurs once, and the list holds 1 to MaxCount - 1 entries |
| FootprintHistory.HistoryOrder | pcbnew/load_select_footprint.cpp:65-79 | the older entries follow in their old order, trimmed only at the end |
| FootprintHistory.HistoryIdempotent | pcbnew/load_select_footprint.cpp:65-79 | adding the same name twice equals adding it once |
| FootprintHistory.WithoutCounts | pcbnew/load_select_footprint.cpp:68-72 | every other entry keeps its number of occurrences: the multiset of the list with the name's count set to 0 |
| FootprintHistory.WithoutKeepsOrder | pcbnew/load_select_footprint.cpp:68-72 | two entries of the result appear in the same order in the original list |
| FootprintHistory.WithoutPositions | pcbnew/load_select_footprint.cpp:68-72 | entry k of the result is the entry at position KeptPositions(s, name)[k] of the list: the result is read off the list at those positions |
| FootprintHistory.KeptIncreasing | pcbnew/load_select_footprint.cpp:68-72 | those positions are strictly increasing, so the result is a subsequence of the list |
| FootprintHistory.KeptCovers | pcbnew/load_select_footprint.cpp:68-72 | every position whose entry is not the name is among them, so no other entry is dropped |
| FootprintHistory.WithoutAbsent | pcbnew/load_select_footprint.cpp:68-72 | removing an absent name changes nothing |
| FootprintHistory.WithoutAppendHead | pcbnew/load_select_footprint.cpp:68-75 | the de-duplication discards a copy of the name at the head |
| FootprintHistory.ModuleHistory.constructor | pcbnew/load_select_footprint.cpp:62 | the history starts empty |
| FootprintHistory.ModuleHistory.AddModuleToHistory | pcbnew/load_select_footprint.cpp:65-79 | the new list is the specified history of the old list and the name |
| FootprintHistory.RemoveDuplicates | pcbnew/load_select_footprint.cpp:68-72 | the backward removal loop leaves the list without the name, order kept |
| FootprintHistory.TrimHistory | pcbnew/load_select_footprint.cpp:78-79 | the trim loop keeps the first entries, fewer than the maximum count |
| GerberImage.LeadingDigits | gerbview/rs274d.cpp:419-424 | the length of the maximal run of decimal digits at the start |
| GerberImage.CodeNumber | gerbview/rs274d.cpp:411-451 | GCodeNumber/DCodeNumber skip the letter and read the digits: the value is non-negative and the rest starts after the digits |
| GerberImage.StarIndex | gerbview/rs274d.cpp:476-500 | the index of the first '*', or the length when there is none |
| GerberImage.SkipComment | gerbview/rs274d.cpp:499-500 | the comment skip stops at the first '*' |
| GerberImage.SkipStructuredComment | gerbview/rs274d.cpp:480-500 | skipping a star-free prefix and then the rest equals skipping the whole comment |
| GerberImage.ArcCentre | gerbview/rs274d.cpp:221-300 | in multi-quadrant mode the centre is the start plus the offset; in single-quadrant mode it is the start moved by the offset's magnitudes |
| GerberImage.CanonicalPair | gerbview/rs274d.cpp:287-296 | the end points are kept when clockwise and swapped otherwise |
| GerberImage.FillLineItem | gerbview/rs274d.cpp:158-176 | a stroke item with the given end points, pen size, D-code and polarity |
| GerberImage.FillArcItem | gerbview/rs274d.cpp:207-305 | an arc item with the computed centre, the canonical end points, the pen size and the D-code |
| GerberImage.FillFlashedItem | gerbview/rs274d.cpp:103-143 | a flashed item at the position, with the shape of the aperture; a circle gets a square size of its x size |
| GerberImage.ArcVertices | gerbview/rs274d.cpp:384-404 | the arc loop yields count + 1 vertices |
| GerberImage.ArcPolyItem | gerbview/rs274d.cpp:334-405 | an arc segment always adds vertices to the region outline |
| GerberImage.RegionSegmentItem | gerbview/rs274d.cpp:644-657 | a linear region segment always adds vertices to the outline |
| GerberImage.FillArcPoly | gerbview/rs274d.cpp:334-405 | the method's result is the specified arc-to-polygon item |
| GerberImage.AppendArcVertices | gerbview/rs274d.cpp:384-404 | the loop appends exactly the specified arc vertices |
| GerberImage.ArcPolyEndsAtEnd | gerbview/rs274d.cpp:334-405 | the arc outline has chord count + 1 vertices and its last vertex is the arc end point |
| GerberImage.RegionDrawKeepsConsistent | gerbview/rs274d.cpp:614-661 | a D01 in region mode keeps the image consistent, exposes, and opens at most one new polygon |
| GerberImage.PlainDrawStep | gerbview/rs274d.cpp:683-737 | a plain D01 only exposes, moves the previous position, and adds items, messages and the IJ flag |
| GerberImage.Image.constructor | gerbview/rs274d.cpp:581-588 | the image starts in the initial state with the given tool table and layer polarity |
| GerberImage.Image.SelectTool | gerbview/rs274d.cpp:590-604 | the new state is the specified tool selection |
| GerberImage.Image.CloseRegion | gerbview/rs274d.cpp:551-562 | only the drawings change: the last outline is closed |
| GerberImage.Image.SetMode | gerbview/rs274d.cpp:519-544 | the new state is the specified mode switch |
| GerberImage.Image.ModeFields | gerbview/rs274d.cpp:519-544 | the computed mode fields are those of the specified mode switch |
| GerberImage.Image.ExecuteGCommand | gerbview/rs274d.cpp:454-575 | state, result and rest of the text are the specified G step, and the image stays consistent |
| GerberImage.Image.SkipGComment | gerbview/rs274d.cpp:476-501 | the comment is skipped up to the first '*' |
| GerberImage.Image.SelectToolFromText | gerbview/rs274d.cpp:505-517 | a D-code of at least the first D-code selects that tool; a smaller one is refused and nothing changes |
| GerberImage.Image.PolyFillOff | gerbview/rs274d.cpp:551-562 | the new state is the specified G37 step |
| GerberImage.Image.ExecuteDCodeCommand | gerbview/rs274d.cpp:579-767 | state and result are the specified D step, and the image stays consistent |
| GerberImage.Image.RegionCommand | gerbview/rs274d.cpp:610-677 | state and result are the specified region-mode step |
| GerberImage.Image.RegionDraw | gerbview/rs274d.cpp:614-661 | the new state is the specified region D01 |
| GerberImage.Image.RegionDrawnItems | gerbview/rs274d.cpp:615-657 | the items after a region D01 are the specified ones |
| GerberImage.Image.ExtendRegion | gerbview/rs274d.cpp:632-657 | in an arc mode the outline grows by the arc polygon, otherwise by a straight segment |
| GerberImage.Image.AddRegionSegment | gerbview/rs274d.cpp:644-657 | a linear segment is appended to the outline |
| GerberImage.Image.PlainCommand | gerbview/rs274d.cpp:679-764 | state and result are the specified plain-mode step, and the image stays consistent |
| GerberImage.Image.LookUpTool | gerbview/rs274d.cpp:581-593 | size, D-code and shape of the current tool, with a 15x15 circle of D-code 0 when the tool does not exist |
| GerberImage.Image.Flash | gerbview/rs274d.cpp:744-759 | the new state is the specified flash |
| GerberImage.Image.PlainDraw | gerbview/rs274d.cpp:683-737 | the new state is the specified plain D01 |
| GerberImage.Image.PlainDrawItems | gerbview/rs274d.cpp:686-733 | the items, messages and IJ flag after a plain D01 are the specified ones |
| GerberImageProps.DCodeSelectsTool | gerbview/rs274d.cpp:590-604 | a D-code at or above the first D-code selects it, clamped to the table size, and marks it in use; nothing else changes |
| GerberImageProps.G54SelectsTool | gerbview/rs274d.cpp:505-517 | G54 reads the D-code and selects it when it is a tool number; otherwise it refuses and changes nothing |
| GerberImageProps.ParseCodeReadsDigits | gerbview/rs274d.cpp:411-451 | a letter, a digit run and a non-digit rest parse to the decimal value of the digits and that rest |
| GerberImageProps.ModeCodesChangeOnlyModes | gerbview/rs274d.cpp:519-544 | G01/G02/G03/G70/G71/G74/G75/G90/G91 set their modes and nothing else |
| GerberImageProps.CommentSkipsToStar | gerbview/rs274d.cpp:476-501 | G04 changes no state and leaves the text from the first '*' on |
| GerberImageProps.UnhandledGCodeReported | gerbview/rs274d.cpp:564-571 | an unknown G code adds a message and fails |
| GerberImageProps.G36EntersRegionMode | gerbview/rs274d.cpp:546-549 | G36 turns region mode on with exposure off, and nothing else |
| GerberImageProps.G37ClosesRegion | gerbview/rs274d.cpp:551-562 | G37 after a region stroke closes the last outline on its first vertex and leaves region mode |
| GerberImageProps.G37KeepsItems | gerbview/rs274d.cpp:551-562 | G37 adds no item and leaves region mode; without exposure the items are unchanged |
| GerberImageProps.PlainD01Draws | gerbview/rs274d.cpp:683-737 | D01 outside regions appends one stroke or arc with the current tool; an unknown interpolation only adds an error message |
| GerberImageProps.PlainD02Moves | gerbview/rs274d.cpp:739-742 | D02 only moves: exposure off, previous position updated |
| GerberImageProps.PlainD03Flashes | gerbview/rs274d.cpp:744-759 | D03 appends one flash at the current position with the current tool's D-code, shape and size (a circle takes its x size for both), the layer's polarity, and the 15x15 circle default without a tool |
| GerberImageProps.OtherPenCodesRefused | gerbview/rs274d.cpp:675-676 | any other pen code below the first D-code fails and changes nothing but the last pen command |
| GerberImageProps.RegionFirstSegmentOpens | gerbview/rs274d.cpp:615-630 | the first linear D01 of a region appends a polygon item holding the two end points |
| GerberImageProps.RegionExtends | gerbview/rs274d.cpp:632-660 | a later D01 extends the last outline, keeps its old vertices, and ends at the current position |
| GerberImageProps.RegionD02Closes | gerbview/rs274d.cpp:663-673 | D02 in a region closes the outline on its first vertex and stops exposing |
| GerberImageProps.DStepKeepsConsistent | gerbview/rs274d.cpp:579-767 | every D command keeps the image consistent |
| GerberImageProps.PlainStepStaysOutOfRegions | gerbview/rs274d.cpp:679-764 | a plain-mode D command never enters region mode |
| GerberImageProps.GStepKeepsConsistent | gerbview/rs274d.cpp:454-575 | every G command keeps the image consistent |
| GerberImageProps.ModeCodeKeepsConsistent | gerbview/rs274d.cpp:519-544 | mode codes keep the image consistent |
| GerberImageProps.OtherCodeKeepsConsistent | gerbview/rs274d.cpp:460-571 | the remaining G codes keep the image consistent |
| GerberImageProps.RegionCloseAsWrittenIsSafe | gerbview/rs274d.cpp:551-557 | inside region mode the G37 guard as written is safe and agrees with the corrected close |
| GerberImageProps.CloseAgreesWhereDefined | gerbview/rs274d.cpp:551-557 | wherever the as-written close is defined, it equals the corrected close |
| GerberImageProps.G37AfterStrokeAsWritten | gerbview/rs274d.cpp:551-557 | after a plain D01 stroke, the as-written guard lets G37 read the first vertex of an empty outline |
| GerberPlotter.FindAperture | common/plotters/GERBER_plotter.cpp:315-326 | the first table index with the same type, size and attribute, or None when there is none |
| GerberPlotter.LookupKeepsWellFormed | common/plotters/GERBER_plotter.cpp:309-338 | a lookup keeps the table free of duplicated keys and gives a new entry D-code 10 + its index |
| GerberPlotter.FlashPolyTypeEncodesCorners | common/plotters/GERBER_plotter.cpp:1055-1057 | for 3 to 12 corners the aperture type is the regular polygon with exactly that many vertices |
| GerberPlotter.Selection | common/plotters/GERBER_plotter.cpp:341-360 | the selected aperture has the type and size (and, with net attributes, the attribute); nothing is written and nothing changes iff the current aperture already matches; otherwise the table is the lookup's table and one tool selection of the selected D-code is written |
| GerberPlotter.SelectionDCode | common/plotters/GERBER_plotter.cpp:309-338 | the selected aperture's D-code is 10 plus its index, and a newly added aperture's D-code differs from every earlier one |
| GerberPlotter.GerberPlotter.constructor | common/plotters/GERBER_plotter.cpp:46-64 | no apertures, no current aperture (the end of the list), no output, pen state 'Z', and the given net-attribute setting |
| GerberPlotter.GerberPlotter.GetAperture | common/plotters/GERBER_plotter.cpp:309-338 | returns the index of the first matching aperture, or appends a new one at the end and returns its index |
| GerberPlotter.GerberPlotter.SelectAperture | common/plotters/GERBER_plotter.cpp:341-360 | the table, the current aperture and the output become those of the selection, with the effective attribute; widths, pen state and the net-attribute setting are kept |
| GerberPlotter.GerberPlotter.SelectPolyAperture | common/plotters/GERBER_plotter.cpp:362-377 | the table, current aperture and output are those of the selection of the type with size (diameter, rotation in thousandths of a degree truncated to an int); widths and pen state are kept |
| GerberPlotter.GerberPlotter.SetCurrentLineWidth | common/plotters/GERBER_plotter.cpp:289-306 | DO_NOT_SET changes nothing; otherwise the table, current aperture and output are those of the selection of a plotting aperture of the pen width (the default when not positive) with the metadata's attribute or 0, and that width becomes current; the pen state is kept |
| GerberPlotter.GerberPlotter.SetDefaultLineWidth | common/plotters/GERBER_plotter.cpp:282-286 | sets the default width and forgets the current aperture; the table, the output, the current width, the pen state and the net-attribute switch are kept |
| GerberPlotter.GerberPlotter.PenTo | common/plotters/GERBER_plotter.cpp:474-492 | 'U' emits a D02 move, 'D' a D01 draw, 'Z' nothing; the pen state becomes the plume; the table, the current aperture, both widths and the net-attribute switch are kept |
| GerberPlotter.GerberPlotter.MoveTo | include/plotter.h:244-247 | emits one D02 move and lifts the pen; the table, the current aperture, both widths and the net-attribute switch are kept |
| GerberPlotter.GerberPlotter.LineTo | include/plotter.h:249-252 | emits one D01 draw and lowers the pen; the table, the current aperture, both widths and the net-attribute switch are kept |
| GerberPlotter.GerberPlotter.FinishTo | include/plotter.h:254-258 | emits one D01 draw and ends the pen stroke; the table, the current aperture, both widths and the net-attribute switch are kept |
| GerberPlotter.GerberPlotter.PenFinish | include/plotter.h:260-264 | emits nothing and ends the pen stroke; the table, the current aperture, both widths and the net-attribute switch are kept |
| GerberPlotter.GerberPlotter.FlashRegularPolygon | common/plotters/GERBER_plotter.cpp:1044-1064 | the table and current aperture are those of the selection of the regular-polygon aperture for the corner count; the output is the selection's output followed by one D03 flash at the position; widths and pen state are kept |
| GerberPlotter.Rect | common/plotters/GERBER_plotter.cpp:496-511 | the outline is a closed path of five axis-parallel corners through both given points |
| GerberPlotter.FindFirstIs | common/plotters/GERBER_plotter.cpp:315-326 | the first matching index is what the lookup returns |
| GerberPlotter.FindNoneIs | common/plotters/GERBER_plotter.cpp:315-326 | without any match the lookup finds nothing |
| Plotter.PolyTypeFor | include/plotter.h:1079-1087 | the vertex count is encoded as a regular-polygon type |
| Plotter.VerticeCountRoundTrip | include/plotter.h:1079-1092 | encoding then decoding a vertex count gives it clamped to 3..12; every polygon type decodes and re-encodes to itself |
| Plotter.Aperture.constructor | include/plotter.h:1105-1119 | the aperture holds the given definition |
| Plotter.Aperture.SetVerticeCount | include/plotter.h:1079-1092 | the type becomes a regular polygon whose vertex count is the clamped count; nothing else changes |
| Plotter.Aperture.SetDiameter | include/plotter.h:1069-1077 | GetDiameter returns the value set; only the x size changes |
| JobFile.HexCharValue | pcbnew/exporters/gerber_jobfile_writer.cpp:70 | a hex digit's value is below 16 |
| JobFile.HexCharRoundTrip | pcbnew/exporters/gerber_jobfile_writer.cpp:70 | every value below 16 prints as a hex digit that reads back as itself |
| JobFile.HexDigits | pcbnew/exporters/gerber_jobfile_writer.cpp:70 | the %4X conversion prints only hex digits |
| JobFile.HexDigitsRoundTrip | pcbnew/exporters/gerber_jobfile_writer.cpp:70 | the printed digits read back as the value, padded to the width and exactly that wide when the value fits |
| JobFile.FormatAsWrittenShape | pcbnew/exporters/gerber_jobfile_writer.cpp:59-75 | as written, printable ASCII is copied and every other letter becomes \u followed by hex digits of its value |
| JobFile.FormatAsWrittenQuote | pcbnew/exporters/gerber_jobfile_writer.cpp:65-72 | as written, a double quote is copied unescaped and the output is not a valid JSON string body |
| JobFile.FormatAsWrittenAstralText | pcbnew/exporters/gerber_jobfile_writer.cpp:65-72 | as written, U+1F600 becomes the five-digit escape `\u1F600` |
| JobFile.FormatAsWrittenAstral | pcbnew/exporters/gerber_jobfile_writer.cpp:65-72 | a JSON reader reads that escape back as two other characters, U+1F60 and '0' |
| JobFile.EscapeReads | pcbnew/exporters/gerber_jobfile_writer.cpp:70 | a four-digit \u escape reads back as its code unit |
| JobFile.JsonLetterReads | pcbnew/exporters/gerber_jobfile_writer.cpp:59-75 | every escaped letter reads back as that letter, whatever follows |
| JobFile.SurrogateArithmetic | pcbnew/exporters/gerber_jobfile_writer.cpp:59-75 | a supplementary code point splits into a high and a low surrogate that combine back to it |
| JobFile.PairDecodes | pcbnew/exporters/gerber_jobfile_writer.cpp:59-75 | two escapes holding a surrogate pair read back as the combined code point |
| JobFile.SurrogatesRead | pcbnew/exporters/gerber_jobfile_writer.cpp:59-75 | a supplementary letter escaped as a pair reads back as itself |
| JobFile.JsonEscapedRoundTrip | pcbnew/exporters/gerber_jobfile_writer.cpp:59-75 | the escaped text of any sequence of Unicode scalar values reads back as that sequence |
| JobFile.FormatStringFromUTF32 | pcbnew/exporters/gerber_jobfile_writer.cpp:59-75 | the loop builds the as-written text: each letter copied or escaped as the source does |
| JobFile.FormatJsonString | pcbnew/exporters/gerber_jobfile_writer.cpp:59-75 | the corrected loop builds the intended escaping, which reads back as the name |
| JobFile.LowerCaseEscapeReads | pcbnew/exporters/gerber_jobfile_writer.cpp:70 | a JSON reader also takes lower-case hexadecimal digits in a \u escape |
| JobFile.OrBits | pcbnew/exporters/gerber_jobfile_writer.cpp:78-109 | or-ing a side bit into the flag keeps it a two-bit value |
| JobFile.SidesOf | pcbnew/exporters/gerber_jobfile_writer.cpp:78-109 | the side flag of a layer list is a two-bit value |
| JobFile.SideFlags | pcbnew/exporters/gerber_jobfile_writer.cpp:78-109 | the loop over the plotted layers computes the side flag |
| JobFile.HasSilkLayers | pcbnew/exporters/gerber_jobfile_writer.cpp:78-92 | the side flag of the silk-screen layers |
| JobFile.HasSolderMasks | pcbnew/exporters/gerber_jobfile_writer.cpp:95-109 | the side flag of the solder-mask layers |
| JobFile.SideKeyValue | pcbnew/exporters/gerber_jobfile_writer.cpp:111-134 | 0..3 map to "No", "TopOnly", "BotOnly" and "Both"; anything else has no key |
| JobFile.SideKeyOfLayers | pcbnew/exporters/gerber_jobfile_writer.cpp:78-134 | the key of a layer list always exists; it is "Both" iff both sides are plotted and "No" iff neither is |
| JobFile.WithoutSeparator | pcbnew/exporters/gerber_jobfile_writer.cpp:188-205 | a trailing ',' is dropped, a trailing ",\n" becomes "\n", and anything else stays |
| JobFile.JobFileWriter.constructor | pcbnew/exporters/gerber_jobfile_writer.cpp:51-57 | the JSON buffer starts empty |
| JobFile.JobFileWriter.RemoveJSONSeparator | pcbnew/exporters/gerber_jobfile_writer.cpp:188-205 | the buffer becomes the buffer without its trailing separator |
| JobFile.WithoutSeparatorAfterItem | pcbnew/exporters/gerber_jobfile_writer.cpp:188-205 | removing the separator after an item gives back the item, keeping a final newline |
| JobFile.LayerAttributes | pcbnew/exporters/gerber_jobfile_writer.cpp:372-438 | copper layers get "Copper,L<n>,Top/Inr/Bot" and positive polarity; other layers have attributes iff they have a technical function; only the masks are negative |
| JobFile.TechnicalFunctionsDistinct | pcbnew/exporters/gerber_jobfile_writer.cpp:391-437 | two different technical layers never share a file function |
| ModuleStatus.WithBit | pcbnew/class_module.h:291-297 | the bits of the mask follow the flag and every other bit is kept |
| ModuleStatus.SetThenGet | pcbnew/class_module.h:281-325 | setting a status flag and reading it back gives the value set |
| ModuleStatus.SetKeepsOthers | pcbnew/class_module.h:275-325 | setting one status flag leaves the other three reading as before |
| ModuleStatus.Module.constructor | pcbnew/class_module.h:113 | a footprint starts with no status bit set and with flag 0 |
| ModuleStatus.Module.SetLocked | pcbnew/class_module.h:281-297 | only the locked bit changes and IsLocked returns the value set |
| ModuleStatus.Module.SetIsPlaced | pcbnew/class_module.h:299-306 | only the placed bit changes and IsPlaced returns the value set |
| ModuleStatus.Module.SetNeedsPlaced | pcbnew/class_module.h:308-315 | only the to-place bit changes and NeedsPlaced returns the value set |
| ModuleStatus.Module.SetPadsLocked | pcbnew/class_module.h:317-325 | only the pads-locked bit changes and PadsLocked returns the value set |
| ModuleStatus.Module.IncrementFlag | pcbnew/class_module.h:243 | m_arflag goes up by one and nothing else changes |
| ModuleStatus.Module.IsNetTie | pcbnew/class_module.h:247 | true iff the keywords start with "net tie" |
| ModuleStatus.NetTieKeywords | pcbnew/class_module.h:247 | keywords beginning with "net tie" are a net tie whatever follows, and shorter keywords never are |
| RouterRules.SuffixLength | pcbnew/router/pns_kicad_iface.cpp:280-323 | the recognised suffix has 0 to 3 letters |
| RouterRules.SuffixRuleIs | pcbnew/router/pns_kicad_iface.cpp:280-328 | the rule chain is read as a suffix length; a suffix gives polarity +1 for P/+ and -1 for N/-, and swaps P and N or + and - |
| RouterRules.MatchDpSuffix | pcbnew/router/pns_kicad_iface.cpp:275-331 | without a suffix the polarity is 0 and the outputs are untouched; otherwise the base is the name without the suffix and the complement is the base plus the swapped suffix |
| RouterRules.MatchDpSuffixPolarity | pcbnew/router/pns_kicad_iface.cpp:280-323 | the polarity is +1 exactly for names ending in +, P, P<d>, P<d><d> or P<sign><d>, and -1 exactly for the N and - forms; no name has both |
| RouterRules.EndsPolarityAtSuffix | pcbnew/router/pns_kicad_iface.cpp:280-323 | a name ends in a polarity form iff its recognised suffix starts with that sign or letter |
| RouterRules.SuffixSwapped | pcbnew/router/pns_kicad_iface.cpp:280-328 | the swapped suffix is recognised with the same length, has the opposite polarity, and swapping twice gives it back |
| RouterRules.MatchDpSuffixInvolution | pcbnew/router/pns_kicad_iface.cpp:275-331 | the complement of the complement is the name, with the opposite polarity and the same base |
| RouterRules.MatchDpSuffixTwoDigits | pcbnew/router/pns_kicad_iface.cpp:300-305 | "CLK_P12" is positive with partner "CLK_N12" |
| RouterRules.MatchDpSuffixSignForm | pcbnew/router/pns_kicad_iface.cpp:290-294 | "USB_D-" is negative with partner "USB_D+" |
| RouterRules.MatchDpSuffixDigitForm | pcbnew/router/pns_kicad_iface.cpp:318-323 | "LVDS_N3" is negative with partner "LVDS_P3" |
| RouterRules.MatchDpSuffixSignedDigit | pcbnew/router/pns_kicad_iface.cpp:300-317 | wxString::IsNumber takes a leading sign: "XP+1" is positive with partner "XN+1", and "XN+1" negative with partner "XP+1" |
| RouterRules.MatchDpSuffixNoSuffix | pcbnew/router/pns_kicad_iface.cpp:278-330 | "GND" has no suffix and leaves the outputs untouched |
| RouterRules.DpCoupledNet | pcbnew/router/pns_kicad_iface.cpp:334-351 | the net code of the complementary name when the name has a suffix and the board knows the partner, otherwise -1 |
| RouterRules.HoleRadius | pcbnew/router/pns_kicad_iface.cpp:170-189 | half the drill of a round pad or of a via; 0 for anything else |
| RouterRules.AddPadsRule | pcbnew/router/pns_kicad_iface.cpp:136-150 | one footprint's pads: a positive pad clearance, or else a positive footprint clearance, is cached |
| RouterRules.PadCacheOther | pcbnew/router/pns_kicad_iface.cpp:136-150 | only pads of the board get a cache entry |
| RouterRules.PadCacheRule | pcbnew/router/pns_kicad_iface.cpp:136-150 | every pad is cached with its own clearance when positive, else its footprint's when positive, else not at all |
| RouterRules.NetEntry | pcbnew/router/pns_kicad_iface.cpp:110-134 | a missing net gets the empty entry; otherwise its net class clearance, its pair gap and its coupled net |
| RouterRules.BuildNetCache | pcbnew/router/pns_kicad_iface.cpp:110-134 | the loop builds one entry per net code, each the specified entry |
| RouterRules.BuildPadCache | pcbnew/router/pns_kicad_iface.cpp:136-150 | the loop builds the specified pad cache |
| RouterRules.DefaultClearanceOf | pcbnew/router/pns_kicad_iface.cpp:152-162 | the "Default" net class clearance, or 0.254 mm when there is no such class |
| RouterRules.RuleResolver.constructor | pcbnew/router/pns_kicad_iface.cpp:103-163 | both caches and the default clearance are the specified ones |
| RouterRules.RuleResolver.LocalPadClearance | pcbnew/router/pns_kicad_iface.cpp:229-243 | the cached value of the item's pad, 0 without a pad or without a cache entry |
| RouterRules.RuleResolver.ItemClearance | pcbnew/router/pns_kicad_iface.cpp:245-264 | a positive pad clearance wins; otherwise the net's cached clearance, or the default for an item without a net |
| RouterRules.RuleResolver.Clearance | pcbnew/router/pns_kicad_iface.cpp:245-264 | the larger of the two items' clearances |
| RouterRules.RuleResolver.NetClearance | pcbnew/router/pns_kicad_iface.cpp:266-272 | the cached clearance of a known positive net code, otherwise the default |
| RouterRules.RuleResolver.CollideHoles | pcbnew/router/pns_kicad_iface.cpp:191-226 | true iff both items have holes at different centres closer than the minimum hole gap plus both radii |
| RouterRules.RuleResolver.DpNetPair | pcbnew/router/pns_kicad_iface.cpp:368-404 | a net with a pair suffix whose complement exists gives the codes of (positive, negative) in that order; otherwise none |
| RouterRules.ClearanceSymmetric | pcbnew/router/pns_kicad_iface.cpp:245-264 | the clearance of two items does not depend on their order |
| RouterRules.ClearanceOverloadsAgree | pcbnew/router/pns_kicad_iface.cpp:245-272 | for an item with a net and no pad clearance, the item overload and the net overload agree |
| RouterRules.CollideHolesSymmetric | pcbnew/router/pns_kicad_iface.cpp:191-226 | hole collision does not depend on the order of the items |
| RouterRules.DpNetPairSymmetric | pcbnew/router/pns_kicad_iface.cpp:368-404 | both nets of a pair report the same (positive, negative) pair |
| SchScreen.RenamedUpTo | eeschema/sch_screen.cpp:1322-1353 | renaming up to a screen keeps the number of screens |
| SchScreen.RenameCounts | eeschema/sch_screen.cpp:1332-1349 | renaming leaves no symbol with the old nickname, moves them all to the new one, and keeps the number of symbols |
| SchScreen.MarkerCountBounds | eeschema/sch_screen.cpp:1185-1210 | an unspecified marker type or severity counts at least as many markers, and never more than the items |
| SchScreen.CountMarkers | eeschema/sch_screen.cpp:1192-1207 | the loop counts the markers of the type and severity |
| SchScreen.RenameSymbols | eeschema/sch_screen.cpp:1332-1349 | the loop renames every matching symbol and counts them |
| SchScreen.ScanSymbols | eeschema/sch_screen.cpp:1262-1282 | reports whether a symbol has a library nickname, and otherwise counts the symbols |
| SchScreen.Screen.constructor | eeschema/sch_screen.cpp:104-125 | a new screen has reference count 0 |
| SchScreen.Screen.IncRefCount | eeschema/sch_screen.cpp:144-147 | the count goes up by one |
| SchScreen.Screen.DecRefCount | eeschema/sch_screen.cpp:150-155 | the count goes down by one and never below 0 |
| SchScreen.ItemsOf | eeschema/sch_screen.cpp:1185-1353 | the draw lists of the screens, one per screen |
| SchScreen.AdvanceStops | eeschema/sch_screen.cpp:1012-1018 | k calls of GetNext move the index by k but not past the end |
| SchScreen.Screens.constructor | eeschema/sch_screen.cpp:989-993 | the list starts at index 0, empty until screens are added |
| SchScreen.Screens.GetScreen | eeschema/sch_screen.cpp:1021-1027 | the screen at a valid index, otherwise null |
| SchScreen.Screens.GetFirst | eeschema/sch_screen.cpp:1001-1009 | the index goes back to 0 and the first screen or null is returned |
| SchScreen.Screens.GetNext | eeschema/sch_screen.cpp:1012-1018 | the index moves forward and the screen there or null is returned |
| SchScreen.Screens.AddScreenToList | eeschema/sch_screen.cpp:1030-1042 | a non-null screen not yet listed is appended; null or a listed screen changes nothing |
| SchScreen.Screens.GetMarkerCount | eeschema/sch_screen.cpp:1185-1210 | the total count of matching markers over all screens |
| SchScreen.Screens.ChangeSymbolLibNickname | eeschema/sch_screen.cpp:1322-1353 | every screen's symbols of the old nickname now carry the new one, every reference count is kept, the count is the number renamed, and the walk leaves the cursor at the end of the list |
| SchScreen.Screens.RenameScreen | eeschema/sch_screen.cpp:1328-1350 | renaming one screen advances the rename by that screen and counts its symbols |
| SchScreen.Screens.HasNoFullyDefinedLibIds | eeschema/sch_screen.cpp:1255-1285 | true iff there are symbols and none of them has a library nickname; when some symbol has one, the early return leaves the cursor on the first screen holding such a symbol, otherwise the walk leaves it at the end of the list |
| SchScreen.FirstNamedExists | eeschema/sch_screen.cpp:1263-1278 | a first screen holding a named symbol exists only when some screen holds one, and it is unique |
| StrokeFont.StrokesUpTo | common/gal/stroke_font.cpp:84-112 | a point pair, after any number of pairs, leaves at least one stroke |
| StrokeFont.StrokesShape | common/gal/stroke_font.cpp:66-117 | the strokes hold the points of the string in order with the lifts dropped, one stroke per run of points, none empty |
| StrokeFont.LiftSplitsStrokes | common/gal/stroke_font.cpp:84-112 | a lift between two points puts them in two strokes |
| StrokeFont.PairsAccounted | common/gal/stroke_font.cpp:66-117 | every coordinate pair after the width pair is either a point or a pen lift, and strokes never outnumber points |
| StrokeFont.DecodeGlyph | common/gal/stroke_font.cpp:66-117 | the loop decodes the glyph string: width from the first pair, and exactly the strokes of the reference split, a new stroke being opened by the first point after the width or after a lift |
| StrokeFont.GlyphIndex | common/gal/stroke_font.cpp:434-437 | a character's table index, or the index of '?' when it is outside the table |
| StrokeFont.Font.constructor | common/gal/stroke_font.cpp:43-46 | the font starts without glyphs |
| StrokeFont.Font.LoadNewStrokeFont | common/gal/stroke_font.cpp:49-123 | one decoded glyph per font string, each the decoding of its string |
| StrokeFont.Lines | common/gal/stroke_font.cpp:408-453 | a text has at least one line |
| StrokeFont.LinesFrom | common/gal/stroke_font.cpp:411-446 | the lines from a position on are never empty |
| StrokeFont.MaxOf | common/gal/stroke_font.cpp:416-420 | the widest line: at least every line width, not negative, and one of them or 0 |
| StrokeFont.LineCountWithoutTilde | common/gal/stroke_font.cpp:411-446 | without tildes the line count is one more than the number of newlines |
| StrokeFont.WidthAsWrittenAtMost | common/gal/stroke_font.cpp:411-453 | the width as written never exceeds the widest line, and equals it for one-line text |
| StrokeFont.WidthAsWrittenLastLine | common/gal/stroke_font.cpp:416-420 | as written, "WW\nW" measures 10 while its widest line is 20 |
| StrokeFont.RunLines | common/gal/stroke_font.cpp:411-446 | the measuring loop from any point produces the specified line widths |
| StrokeFont.ComputeStringBoundaryLimits | common/gal/stroke_font.cpp:408-453 | the width is the widest line and the line count is the number of lines |
| StrokeFont.MaxOfSnoc | common/gal/stroke_font.cpp:416-420 | appending a line width updates the maximum by a max |
| Zone.Corners | pcbnew/class_zone.cpp:477-501 | every vertex of every outline chain is one of the corners |
| Zone.MinFold | pcbnew/class_zone.cpp:479-498 | the min fold preloaded with PRELOAD is below every value and below PRELOAD, and is one of the values when they are all within PRELOAD |
| Zone.MaxFold | pcbnew/class_zone.cpp:479-498 | the max fold preloaded with -PRELOAD is above every value, and is one of them when they are all within PRELOAD |
| Zone.Span | pcbnew/class_zone.cpp:500 | max - min + 1 when it fits in a 32-bit int |
| Zone.CornerBox | pcbnew/class_zone.cpp:477-501 | the loop computes the corner box |
| Zone.CornerBoxContainsCorners | pcbnew/class_zone.cpp:477-501 | the bounding box contains every corner and has size at least 1 |
| Zone.CornerBoxTight | pcbnew/class_zone.cpp:477-501 | every edge of the bounding box is reached by a corner |
| Zone.CornerBoxEmpty | pcbnew/class_zone.cpp:477-501 | a zone without corners gets the box at PRELOAD of size 3 |
| Zone.MirrorPoint | pcbnew/class_zone.cpp:825-858 | left-right mirrors x about the reference and keeps y; top-bottom mirrors y and keeps x |
| Zone.MirrorTwice | pcbnew/class_zone.cpp:825-858 | mirroring twice gives back the outline, the fill and the segments |
| Zone.MirrorCorners | pcbnew/class_zone.cpp:825-858 | the corners of the mirrored outline are the mirrored corners |
| Zone.MirrorChain | pcbnew/class_zone.cpp:827-833 | the loop mirrors every vertex of a chain |
| Zone.MirrorChains | pcbnew/class_zone.cpp:827-843 | the loop mirrors every chain |
| Zone.MirrorSegs | pcbnew/class_zone.cpp:845-857 | the loop mirrors both ends of every fill segment |
| Zone.ChainAppend | pcbnew/class_zone.cpp:909-926 | the corner is appended, unless duplicates are refused and it equals the last vertex |
| Zone.AppendCornerOf | pcbnew/class_zone.cpp:909-926 | a hole index past the last hole fails and leaves only the empty outline; otherwise exactly the selected chain gets the corner |
| Zone.AppendCornerCount | pcbnew/class_zone.cpp:909-926 | a failure keeps the corner count; a success with duplicates allowed adds exactly one corner |
| Zone.FirstLayer | pcbnew/class_zone.cpp:243-244 | the lowest layer of the set |
| Zone.ZoneContainer.constructor | pcbnew/class_zone.cpp:45-73 | a new zone has no outline, no fill and no refill flag; it has the settings' rules and corner radius, and the settings' layer (copper zone) or the copper part of their layer set with its lowest layer (keepout) |
| Zone.ZoneContainer.UnFill | pcbnew/class_zone.cpp:174-183 | the fill and segments are dropped; the result says whether there was any |
| Zone.ZoneContainer.GetLayerSet | pcbnew/class_zone.cpp:248-260 | a keepout returns its layer set, any other zone the set of its one layer |
| Zone.ZoneContainer.SetLayerSet | pcbnew/class_zone.cpp:227-245 | a keepout keeps only copper layers; an empty set changes nothing; otherwise the set is stored, the lowest layer becomes the layer, and a change asks for a refill |
| Zone.ZoneContainer.SetCornerRadius | pcbnew/class_zone.cpp:522-528 | the radius is stored and a change asks for a refill |
| Zone.ZoneContainer.GetThermalReliefGap | pcbnew/class_zone.cpp:504-510 | a pad's own non-zero gap wins over the zone's |
| Zone.ZoneContainer.GetThermalReliefCopperBridge | pcbnew/class_zone.cpp:513-519 | a pad's own non-zero spoke width wins over the zone's |
| Zone.ZoneContainer.GetPadConnection | pcbnew/class_zone.cpp:861-867 | a pad's own connection wins unless it inherits; a non-inherited zone setting gives a concrete result |
| Zone.ZoneContainer.GetClearance | pcbnew/class_zone.cpp:630-649 | the largest of the zone clearance, the net-class clearance and the item's clearance |
| Zone.ZoneContainer.OutlineClearance | pcbnew/class_zone.cpp:1275-1283 | the minimum value, raised to the zone clearance only when net clearance is used on a copper layer |
| Zone.ZoneContainer.GetBoundingBox | pcbnew/class_zone.cpp:477-501 | the corner box of all outline corners |
| Zone.ZoneContainer.Mirror | pcbnew/class_zone.cpp:825-858 | outline, fill and fill segments are mirrored and nothing else changes |
| Zone.ZoneContainer.AppendCorner | pcbnew/class_zone.cpp:909-926 | the outline is the specified append, and a success asks for a refill |
| Zone.InheritingPadIsNoPad | pcbnew/class_zone.cpp:504-519 | a pad that sets nothing of its own gives the zone's gap, spoke width and connection |

## Left out

- GerberImage.ArcCentre: in single-quadrant mode the contract states only the magnitudes of the centre offset; the sign table of `gerbview/rs274d.cpp:224-288` is the definition SingleQuadrantOffset.
- GerberImage.Image.constructor: the GERBER_FILE_IMAGE constructor is not part of this model; the image starts from the state InitialState, built from the fields set at `gerbview/rs274d.cpp:581-588`.
- The structured-comment (X2 attribute) dispatch of G04 and the StepAndRepeat and net attributes of the image. These are file-format metadata outside the drawing model.
- GetDCODE is modelled as a map from tool numbers to D-codes; its storage and allocation are not modelled.
- The arc trigonometry (ArcTangente, RotatePoint, the chord count) enters as functions of an environment value, because it is floating-point code outside the core.
- TOOLS_MAX_COUNT and FIRST_DCODE enter as fields of the same environment, since their header is not part of this model.
- Report and message output: messages are collected in a sequence and are not printed.
- GerberImage.CodeNumber: reads only the decimal digits '0' to '9' after the code letter. The IsNumber test at `gerbview/rs274d.cpp:421` and `:445` is a gerbview macro whose header is not part of this model, so any sign or other character it also accepts is not read.
- BaseStruct.Replace: the upper-casing used when the search does not match case is not modelled, because wxString case folding is locale-dependent; the model is the case-matching search.
- The MODULE, SCH_SCREEN and GERBER_FILE_IMAGE constructors and the rest of class_module.cpp are not part of this model; the model's constructors set only the fields these members use.
- The SCH_SCREENS constructor fills the list with buildScreenList, which is not modelled; AddScreenToList is the step it repeats.
- The GERBER_PLOTTER constructor sets m_useNetAttributes to true; the model takes the setting as a parameter so both cases are covered.
- The inline EDA_RECT accessors (include/eda_rect.h) are not part of this model; SetEnd, GetEnd and the rest are written from their use in the cited lines.
- GetArea, GetBoundingBoxRotated, Intersects(segment) and the other parts of base_struct.cpp outside the rectangle operations above: floating point or outside the named core.
- All file output of the Gerber plotter and the job file writer: the plotter's output is a list of operations (tool selections, D01/D02/D03), and the JSON buffer is a string.
- SetRotation and GetRotation of the APERTURE record: the rotation is a double. SelectPolyAperture and FlashRegularPolygon store it, as the source does, in thousandths of a degree as an integer.
- GerberPlotter.GerberPlotter.PenTo: the position is written as given; the source first converts it with userToDeviceCoordinates (`common/plotters/GERBER_plotter.cpp:477`), whose scaling and offsets are not part of this model. MoveTo, LineTo, FinishTo and PenFinish call PenTo and share this.
- GerberPlotter.GerberPlotter.FlashRegularPolygon: the flash is written at the position as given; the source converts it with userToDeviceCoordinates (`common/plotters/GERBER_plotter.cpp:1051`) first, and emits the net attributes of the metadata, neither of which is modelled.
- GerberPlotter.GerberPlotter.FlashRegularPolygon: the sketch-mode branch, which draws the outline with lines, is not modelled; only the flashed branch is.
- Millimeter2iu(0.254) is the constant 254000 nanometres (FallbackClearance).
- RouterRules.RuleResolver.ItemClearance requires the item's net to be within the cache, because the source indexes the cache without a check.
- CollideHoles: the minimum translation vector output is not modelled; only the yes/no answer is.
- The router's board, nets and pads are plain values assembled by the caller; BOARD, NETINFO and the router world are not part of this model.
- Zone.ZoneContainer.constructor: zone_settings.cpp is not part of this model. The call of ExportSetting at `pcbnew/class_zone.cpp:70` is modelled as a full export that sets the rules and the corner radius, and the layer of a copper zone or, through SetLayerSet, the layer set of a keepout. The fill mode, hatching, priority, net code and keepout permissions it also sets are not modelled.
- JobFile.LayerAttributes: the "Unexpected layer id" report (`pcbnew/exporters/gerber_jobfile_writer.cpp:434`) is not modelled; such a layer has no attributes (None).
- Zone outlines are sequences of vertex chains, the main outline followed by its holes. SHAPE_POLY_SET operations, hatching and filling are not part of this model.
- Zone.Span: only the case where max - min + 1 fits a 32-bit int is stated; past it C's wrap-around is Geom.Wrap32.
- SCH_SCREENS::buildScreenList, the sheet walkers, GetLibNicknames and the other screen members not listed: outside the named core or building on the schematic hierarchy.
- The list of screens is a sequence of Screen objects; their draw lists are sequences of item values.
- The stroke font's floating-point scaling: glyph size, line thickness, italic and the bounding box of glyphs. computeBoundingBox is not part of this model, and the glyph advances enter as a parameter.
- UTF8 strings are sequences of Dafny characters; tabs and other control characters measure like any glyph.
- StrokeFont.Font.LoadNewStrokeFont requires every font string to be well formed: of even length and with no NUL character before its end, so that the pair loop stops exactly at the terminator. The built-in font always is, and the source does not check it. An empty string decodes to a glyph of width 0 without strokes.
- Integers are unbounded everywhere except where stated: coordinates do not wrap at 32 bits.

## Findings

| source | as written | input that shows it | evidently intended | confidence | as-written member | corrected member |
|---|---|---|---|---|---|---|
| gerbview/rs274d.cpp:551-557 | G37 closes the last polygon when exposure is on and an item exists, without checking its outline | a D01 stroke outside region mode, then G37 | close only an outline that has vertices | not executed | GerberImageProps.G37AfterStrokeAsWritten | GerberImageProps.CloseAgreesWhereDefined |
| common/base_struct.cpp:594 | the negative-width branch compares with -2*dx | width -10, Inflate(6, 0) | compare with 2*dx, as the y branch does | not executed | BaseStruct.InflateXGuardCounterexample | BaseStruct.InflateAxisExtent |
| common/base_struct.cpp:597,628 | collapsing a negative size moves the origin by -size/2 | height -10, Inflate(0, -6) | move it by size/2, to the centre | not executed | BaseStruct.InflateCollapseCounterexample | BaseStruct.InflateAxisExtent |
| pcbnew/exporters/gerber_jobfile_writer.cpp:65-66 | '"' and '\' are copied unescaped into a JSON string | the text `"` | escape quote and backslash | not executed | JobFile.FormatAsWrittenQuote | JobFile.JsonEscapedRoundTrip |
| pcbnew/exporters/gerber_jobfile_writer.cpp:69-70 | code points above U+FFFF get a five-digit `\u` escape, which a JSON reader splits into two other characters | U+1F600 | write a UTF-16 surrogate pair | not executed | JobFile.FormatAsWrittenAstral | JobFile.JsonEscapedRoundTrip |
| common/gal/stroke_font.cpp:416-420 | a newline resets the line width before it is compared with the maximum | "WW\nW" | keep the width of the widest line | not executed | StrokeFont.WidthAsWrittenLastLine | StrokeFont.ComputeStringBoundaryLimits |
