# libradio core, modelled in Dafny

libradio simulates radio propagation and navigation radios for X-Plane. This
project models its core and proves properties of the model:

- **RadioModel** (`radio_model.dfy`): the terrain tile store behind the Java
  `RadioModel` class. It covers the `init` directory scan and tile slots, the
  elevation decoding (`ELEV_SAMPLE2MET`), the water mask, bilinear elevation
  filtering and the relief profile between two stations. It also covers the
  point-to-point level (`p2p_impl`), the terrain colour bands and the
  argument checks of `paintMapMulti`.
- **ItmShim** (`itm.dfy`): how the elevation profile is packed for the
  Longley-Rice (ITM) engine, and the propagation-mode names.
- **NavaidDb** (`navaid.dfy`): parsing `earth_nav.dat` lines into navaids,
  the three orderings (by identifier, latitude and longitude), and the
  first-entry-wins insertion. It also covers the per-airport duplicate
  replacement, the order in which the sources are loaded, the query
  selection, type names and actual frequencies.
- **NavRadio** (`navrad.dfy`): Morse keying of navaid identifiers into 110
  chunks, and the refresh of each radio's navaid tree from a query. It also
  covers the choice of the strongest navaid with the 16 dB interference rule,
  and the per-buffer advance of the identifier cursors with the mixing levels.
- **Crc64** (`crc64.dfy`): the CRC-64 table, checksum and pseudo-random
  generator.
- **Distortion** (`distort.dfy`): the audio distorter's input and output
  buffers, chunking with a 600-sample edge blend, and the draining of output
  with leading silence.
- **Plugin** (`plugin.dfy`): how `XPluginStart` derives the simulator and
  plugin directories, its loading sequence, and the started flag and navaid
  database handle that `XPluginStop` clears.
- **Common** and **CParse** (`common.dfy`, `cparse.dfy`): shared numeric
  helpers (clamping, weighted average, rounding, 64-bit wrap-around) and the
  C-library parsing the core relies on (`atoi`, `sscanf("%d%d")`, `strcmp`,
  `strip_space`, `strsplit`, `strlcpy`).

Code that works by updating state is modelled with classes:

- `RadioModelState` over a 2-D tile array;
- `NavaidDbState`;
- `NavaidTree` and `Radio`;
- `CrcGen`;
- `Distorter`;
- `PluginState`.

Each method is proved against a specification function, and the lemmas about
those functions state the properties. Pure code is modelled with functions and
lemmas.

## Model

| member | source | states |
|---|---|---|
| Common.Clampi | src/distort.c:160-167 | The result lies in [lo, hi] whenever lo <= hi. A value already in range is returned unchanged. Any change moves the value to the bound it crossed. |
| Common.WavgBetween | src/distort.c:233-236 | A weighted average with a weight in [0, 1] stays between any common bounds of its two inputs. |
| Common.Round | src/java/RadioModel.c:53 | `round` lands within one half of its argument and is non-negative for non-negative arguments. |
| Common.RoundMonotone | src/java/RadioModel.c:53 | Rounding never reverses the order of two values. |
| Common.Trunc | src/distort.c:409-411 | Conversion of a double to an integer sample truncates toward zero, from either side. |
| Common.WrapU64 | src/navaiddb.c:181-188 | Frequencies are `uint64_t`: the stored value is below 2^64, equals the product when that fits, and is congruent to it modulo 2^64 otherwise. |
| CParse.ScanInt | src/java/RadioModel.c:331 | A `%d` conversion that succeeds consumes at least one character and never more than the input. |
| CParse.ScanIntReads | src/java/RadioModel.c:331 | White space, an optional sign and a run of digits ending at a non-digit scan to the signed value of those digits, consuming exactly those characters. |
| CParse.AtoIReads | src/navaiddb.c:179 | `atoi` on white space, an optional sign and digits gives the signed value of the digits. |
| CParse.ScanTwoIntsSignSeparates | src/java/RadioModel.c:331 | `%d%d` reads two numbers with no separator when the second starts with a sign. The sign ends the first number and gives the second its sign. |
| CParse.ScanSignedAt | src/java/RadioModel.c:331 | A sign followed by digits reads as the signed value of the digits, consuming exactly the sign and the digits. |
| CParse.AtoFReads | src/navaiddb.c:177-178 | `atof` on white space, an optional sign, digits d, a point and digits f ending at a non-digit gives the signed value of d plus f over 10 to the number of digits of f. |
| CParse.AtoFReadsWhole | src/navaiddb.c:177-178 | `atof` on white space, an optional sign and digits ending at neither a digit nor a point gives the signed value of the digits. |
| CParse.MagnitudeReads | src/navaiddb.c:177-178 | Unsigned digits, a point and more digits read as the whole part plus the fraction over 10 to the number of fraction digits. |
| CParse.MagnitudeWhole | src/navaiddb.c:177-178 | Unsigned digits with no point after them read as their value. |
| CParse.AtoFSigned | src/navaiddb.c:177-178 | A leading minus negates the unsigned value, and a leading plus leaves it unchanged. |
| CParse.LeadingSpacesAt | src/java/RadioModel.c:331 | The white space `%d` skips ends exactly at the first other character. |
| CParse.LeadingDigitsAt | src/java/RadioModel.c:331 | The digits `%d` reads end exactly at the first non-digit. |
| CParse.StrCmp | src/navaiddb.c:82-108 | `strcmp` as the comparators use it, normalised to -1, 0 or 1. |
| CParse.StrCmpAntisymmetric | src/navaiddb.c:82-108 | Swapping the two strings negates the comparison. |
| CParse.StrCmpZeroIffEqual | src/navaiddb.c:82-108 | The comparison is zero exactly when the strings are equal. |
| CParse.StrCmpTransitive | src/navaiddb.c:82-108 | The string order is transitive. |
| CParse.StripSpace | src/navaiddb.c:443 | `strip_space` never lengthens a line, and what remains neither starts nor ends with white space. |
| CParse.StripSpaceTrims | src/navaiddb.c:443 | What `strip_space` leaves is a slice of the line with only white space cut off before and after it. |
| CParse.SpaceOutsideExtends | src/navaiddb.c:443 | Cutting white space off the end keeps a slice with only white space outside it. |
| CParse.SplitTokensAreWords | src/navaiddb.c:444 | Splitting on spaces with empty fields skipped yields only non-empty tokens that contain no space. |
| CParse.SplitOfWord | src/navaiddb.c:444 | A single word splits into itself. |
| CParse.SplitWordThen | src/navaiddb.c:444 | A blank-free word, a blank and any rest split into the word followed by the rest's tokens. |
| NavaidDb.SplitJoinSpace | src/navaiddb.c:444 | Splitting the blank-joined list of non-empty, blank-free words gives the list back. |
| CParse.Strlcpy | src/navaiddb.c:190-193 | `strlcpy` into a buffer of `cap` bytes keeps a prefix of at most cap - 1 characters, and the whole string when it fits. |
| Crc64.BitStepSelects | src/distort.c:107-117 | In the table step `-(crc & 1) & POLY`, the polynomial is XORed in exactly when the low bit is set. |
| Crc64.TableKnownEntries | src/distort.c:107-134 | Table entry 128 is the polynomial, which is the self-check `crc64` asserts, and entry 0 is 0. |
| Crc64.BuildTable | src/distort.c:107-117 | Every one of the 256 entries `crc64_init` fills is eight shift steps of its index. |
| Crc64.Crc | src/distort.c:123-134 | The checksum starts from all ones with no final inversion, so the checksum of nothing is all ones. |
| Crc64.CrcFromConcat | src/distort.c:123-134 | The checksum can be computed piecewise: the value after the first part is the start value for the second. |
| Crc64.CrcFromCons | src/distort.c:123-134 | The bytes are folded in front to back: the first byte moves the running value, and the rest continue from there. |
| Crc64.LeBytes | src/distort.c:153-157 | A seed is hashed as exactly eight bytes, its in-memory form. |
| Crc64.CrcGen.constructor | src/distort.c:107-145 | After `crc64_init` and `crc64_srand`, the table is the CRC-64 table and the seed is the given one. |
| Crc64.CrcGen.Checksum | src/distort.c:123-134 | The byte loop through the table computes exactly the specified checksum. |
| Crc64.CrcGen.Srand | src/distort.c:142-145 | Sets the seed and keeps the table. |
| Crc64.CrcGen.Rand | src/distort.c:153-157 | The new seed is the checksum of the old seed's bytes, and it is also the value returned. |
| Distortion.ChunkSize | src/distort.c:272-279 | The chunk size from the sample rate and time quantum is larger than the edge blend. |
| Distortion.ChunkDividesRate | src/distort.c:272-279 | For both supported rates the quantum divides the rate exactly (1470 and 1500 samples per chunk). |
| Distortion.Consumed | src/distort.c:386-387 | The chunk loop consumes at most what is buffered and leaves less than a chunk. It consumes nothing when less than a chunk is buffered. When it consumes anything, something is left (the assertion before the shift). |
| Distortion.ConsumedIsStrides | src/distort.c:386-387 | What the loop consumes is the number of chunks times (chunk size - 600). |
| Distortion.ChunkCount | src/distort.c:386-387 | No chunk is cut from less than one chunk. Every counted chunk fits inside the buffer, and what is left after the last one is less than a chunk. |
| Distortion.ChunkStep | src/distort.c:386-387 | One full chunk is one stride of chunk size - 600 and one more loop pass. |
| Distortion.Blended | src/distort.c:401-413 | The edge blend keeps the chunk's length. |
| Distortion.BlendEdge | src/distort.c:401-413 | The blending loop computes the blended chunk. |
| Distortion.BlendBetween | src/distort.c:404-411 | The first blended sample is the old output sample. Every blended sample lies between the old and the new sample. |
| Distortion.BlendAt | src/distort.c:404-411 | The fade starts at the old sample and would reach the new one at sample 600. |
| Distortion.Faded | src/distort.c:401-413 | The processed chunk keeps its length. With no pending output tail it is unchanged. Only its first 600 samples can change. |
| Distortion.Stored | src/distort.c:417-428 | Storing a chunk keeps the output buffer well formed: fill <= active fill <= capacity = buffer length. |
| Distortion.ChunkOut | src/distort.c:399-428 | One chunk's effect on the output buffer keeps it well formed. |
| Distortion.StoredEffect | src/distort.c:417-428 | The fill advances by chunk size - 600 and the active fill is 600 past it. The capacity never shrinks and earlier output is kept. The chunk lands at the old fill, and the A/B toggle flips. |
| Distortion.Avail | src/distort.c:359-360 | With the `size_t` wrap-around written out, `avail` never exceeds the output fill. It is the fill minus the missing input when that does not underflow. Otherwise the wrapped difference is huge and `MIN` yields the fill itself. |
| Distortion.Padding | src/distort.c:361-364 | Silence padding plus the samples copied add up to the request. |
| Distortion.Distorter.constructor | src/distort.c:259-287 | `distort_init` for 44100 or 48000 Hz: empty buffers, unit compressor energy and amplification, zero RMS and noise. |
| Distortion.Distorter.ClearBuffers | src/distort.c:319-326 | Empties all three fills and resets the compressor state; capacities, buffers and the other settings stay. |
| Distortion.Distorter.Feed | src/distort.c:339-350 | The input buffer grows to fit, the compressed samples are appended, and the compressor state advances. The output side is untouched. |
| Distortion.Distorter.Process | src/distort.c:381-438 | The output fill grows by exactly what the chunk loop consumes. The unconsumed input is moved to the front. Earlier output is kept and the capacity never shrinks. |
| Distortion.Distorter.ShiftInput | src/distort.c:431-437 | `memmove` of the unconsumed input: its fill drops by n and its contents are the old ones from n on. |
| Distortion.Distorter.RunChunks | src/distort.c:386-429 | The loop consumes `Consumed(fill, chunk size)` and the output fill grows by the same amount. Earlier output is kept. |
| Distortion.Distorter.ProcessChunk | src/distort.c:388-428 | One pass of the chunk loop leaves the output state equal to `ChunkOut` of the old state. |
| Distortion.Distorter.StoreChunk | src/distort.c:417-428 | Growing, copying and advancing leave the output state equal to `Stored` of the old state. |
| Distortion.Distorter.Drain | src/distort.c:359-377 | Exactly n samples come out. They are silence, then the first min(n, avail) samples of the output buffer, and the rest of the buffer moves to the front. |
| Distortion.Distorter.ShiftOutput | src/distort.c:372-376 | The output `memmove`: both fills drop by k and the active contents move forward by k. |
| Distortion.Distorter.Impl | src/distort.c:329-378 | `distort_impl` returns as many samples as it was given and records the amplification and noise level. |
| ItmShim.PackedProfile | src/itm_c.cc:66-69 | The packed profile has two more entries than the elevation profile. |
| ItmShim.PackRoundTrip | src/itm_c.cc:66-69 | Unpacking the ITM array gives back the elevations and the distance. Its first entry is the point count minus one. |
| ItmShim.UnpackProfile | src/itm_c.cc:66-69 | The elevations are the packed array after its two header entries. |
| ItmShim.PackProfile | src/itm_c.cc:66-69 | The filling code produces exactly the packed profile in a fresh array. |
| ItmShim.PointToPointMDH | src/itm_c.cc:56-85 | The engine runs on the packed profile. Exactly the requested outputs are returned, and its error number is passed through. |
| ItmShim.PropMode2Str | src/itm_c.cc:88-104 | The name is "unknown" exactly for the modes that have no name of their own. |
| ItmShim.PropModeNamesDistinct | src/itm_c.cc:88-104 | The five named propagation modes have five different names. |
| NavaidDb.TypeValue | src/libradio/navaiddb.h:38-49 | Every navaid type has a non-zero bit value. |
| NavaidDb.TypeBitsDisjoint | src/libradio/navaiddb.h:38-49 | Two types share a bit exactly when they are the same type, so the values are distinct single bits. |
| NavaidDb.MyStrncat | src/navaiddb.c:145-151 | Appending never lets the name exceed cap - 1 characters. |
| NavaidDb.MyStrncatOfTruncated | src/navaiddb.c:145-151 | Appending to a truncated string is truncating the concatenation. |
| NavaidDb.JoinSpaceSnoc | src/navaiddb.c:158-163 | The space-joined list grows by a space and the next component. |
| NavaidDb.JoinSpaceCons | src/navaiddb.c:153-163 | Joining from the front gives the same string: the first component, a blank, and the rest joined. |
| NavaidDb.StrcatList | src/navaiddb.c:154-164 | The loop leaves the components joined by single spaces and truncated to the buffer, so the result is a prefix of the full join. |
| NavaidDb.FreqScale | src/navaiddb.c:181-188 | The frequency field is scaled by 1000 (NDB), 10000 (VOR, LOC, GS, DME) or 1. |
| NavaidDb.MinComps | src/navaiddb.c:216-374 | Every record type needs at least 11 fields. |
| NavaidDb.ParseCommon | src/navaiddb.c:167-211 | A record with too few fields yields nothing. A navaid it yields has the requested type and a valid latitude, longitude and elevation. Its frequency is the scaled 64-bit field, and its strings fit their buffers. |
| NavaidDb.ParseNdb | src/navaiddb.c:213-225 | An NDB line never yields nothing. It yields an error, or an NDB navaid whose frequency passes the NDB check. |
| NavaidDb.ParseVor | src/navaiddb.c:227-246 | A VOR line yields nothing exactly when it ends in "TACAN". Otherwise a short line is an error, and a navaid has the magnetic variation from field 6 and a valid VOR frequency. |
| NavaidDb.ParseLoc | src/navaiddb.c:248-278 | A localizer has a valid bearing, which is field 6 modulo 360. It has a front course exactly when field 6 is 360 or more, a reference datum distance of 2450 m and a localizer frequency. |
| NavaidDb.ParseGs | src/navaiddb.c:280-300 | A glideslope has an angle in (0, 8], a valid bearing and a localizer frequency. A short line is an error. |
| NavaidDb.ParseMrk | src/navaiddb.c:302-320 | A marker has the requested marker type and a valid bearing from field 6. A short line is an error. |
| NavaidDb.ParseDme | src/navaiddb.c:322-339 | A DME has the bias -NM2MET(field 6) and a VOR or localizer frequency. A short line is an error. |
| NavaidDb.ParseFpap | src/navaiddb.c:341-371 | An unknown performance name is an error. An FPAP has the performance field 11 names, a valid course, and the identifier `icao/proc`. |
| NavaidDb.ParseLtpGls | src/navaiddb.c:373-432 | Code 16 gives an LTP and any other code a GLS. Either way the path angle is in (0, 8], the course is valid and the identifier is `icao/proc`. |
| NavaidDb.ProcId | src/navaiddb.c:342-432 | A procedure identifier fits its eight-byte buffer. |
| NavaidDb.ParseComps | src/navaiddb.c:435-494 | An empty line and an unknown row code are skipped without error. A navaid produced has the type the row code names. |
| NavaidDb.MarkerCodes | src/navaiddb.c:303-320 | Row codes 7, 8 and 9 give outer, middle and inner markers. |
| NavaidDb.ShortGsFieldRejected | src/navaiddb.c:281-300 | A glideslope whose angle-and-bearing field has three characters or fewer is malformed. |
| NavaidDb.GsAccepted | src/navaiddb.c:281-300 | An accepted glideslope has an angle in (0, 8] from the first three digits divided by 100, and a valid bearing from the rest of the field. |
| NavaidDb.TacanSkipped | src/navaiddb.c:228-246 | A VOR record ending in "TACAN" is skipped without error. |
| NavaidDb.ParsedNavaidWellFormed | src/navaiddb.c:167-494 | Every navaid a line yields has a valid position, at least its type's field count, and the scaled 64-bit frequency. |
| NavaidDb.BlankLine | src/navaiddb.c:441-446 | A line of white space only is skipped without error. |
| NavaidDb.ParseLine | src/navaiddb.c:434-494 | A line with no fields yields nothing, and a navaid produced has the type its row code names. |
| NavaidDb.StripBlank | src/navaiddb.c:443 | Stripping a blank line leaves nothing. |
| NavaidDb.CmpReal | src/navaiddb.c:55-79 | A three-way comparison of doubles (and of frequencies), zero exactly on equality. |
| NavaidDb.TypeNum | src/navaiddb.c:55-79 | Types are compared by their enum bit value. |
| NavaidDb.CmpType | src/navaiddb.c:55-79 | Types compare as -1, 0 or 1. `CmpTypeProps` states the order. |
| NavaidDb.CmpLatLon | src/navaiddb.c:55-79 | `common_latlon_compar` yields -1, 0 or 1. It orders by the coordinate, then type, identifier and frequency; `LatComparProps` and `LonComparProps` state the order. |
| NavaidDb.LatCompar | src/navaiddb.c:111-115 | Yields -1, 0 or 1. Its order is stated by `LatComparProps`. |
| NavaidDb.LonCompar | src/navaiddb.c:118-122 | Yields -1, 0 or 1. Its order is stated by `LonComparProps`. |
| NavaidDb.IdCompar | src/navaiddb.c:82-108 | Yields -1, 0 or 1. Its order is stated by `IdComparProps`. |
| NavaidDb.CmpTypeProps | src/navaiddb.c:55-79 | The type comparison is antisymmetric and zero exactly for equal types. |
| NavaidDb.LatComparProps | src/navaiddb.c:111-115 | The latitude order is antisymmetric. Two navaids tie exactly when latitude, type, identifier and frequency agree. |
| NavaidDb.LonComparProps | src/navaiddb.c:118-122 | The longitude order is antisymmetric. Two navaids tie exactly when longitude, type, identifier and frequency agree. |
| NavaidDb.IdComparProps | src/navaiddb.c:82-108 | The identifier order is antisymmetric. Two navaids tie exactly when type, region, airport and identifier agree. |
| NavaidDb.RelHdgProps | src/navaiddb.c:512-520 | Between valid headings the relative heading lies in [-180, 180], and its size is the same in either direction. |
| NavaidDb.RelHdg | src/navaiddb.c:512-520 | Adding the relative heading to the first heading reaches the second, up to a full circle. |
| NavaidDb.IsNavaidConflict | src/navaiddb.c:497-526 | Only LOC, GS and DME can conflict, and only on the same frequency. A LOC must be under 1000 m, a GS under 750 m and a DME under 500 m apart. A LOC or GS must also have a course within 10 degrees of the other's. |
| NavaidDb.ConflictSymmetric | src/navaiddb.c:497-526 | With a symmetric distance, conflict does not depend on the order of the two navaids. |
| NavaidDb.KeyOf | src/navaiddb.c:697-703 | The per-airport key is the navaid type and the airport identifier. |
| NavaidDb.ArptKeyAsWrittenOnlyMeetsLatTies | src/navaiddb.c:697-703 | As written, the key spans every field from `type` to `icao`. Two navaids share it only if they already tie in the latitude order. |
| NavaidDb.ArptKeyAsWrittenSeparatesDuplicates | src/navaiddb.c:697-703 | Two LOCs at one airport that differ in identifier and position get different keys as written, but the same (type, airport) key. |
| NavaidDb.EmptyDb | src/navaiddb.c:125-142 | The flushed database is well formed and holds no navaid. |
| NavaidDb.FindIn | src/navaiddb.c:643-647 | `avl_find` in one ordering finds a navaid that ties with the new one, or reports that none ties. |
| NavaidDb.FindOther | src/navaiddb.c:643-647 | Searching by identifier, then latitude, then longitude returns a navaid held by the database that ties with the new one in one of the three orders, and finds nothing exactly when no held navaid ties in any of them. |
| NavaidDb.RemoveAt | src/navaiddb.c:572 | Removing a position shortens the list by one. |
| NavaidDb.Remove | src/navaiddb.c:569-573 | Removing a navaid keeps exactly the other entries. |
| NavaidDb.RemoveUnique | src/navaiddb.c:569-573 | Removing keeps a duplicate-free list duplicate-free. It shortens the list by one when the navaid was there and changes nothing otherwise. |
| NavaidDb.RemoveAtUnique | src/navaiddb.c:573 | Removing one position of a duplicate-free list removes exactly that navaid. |
| NavaidDb.FirstConflict | src/navaiddb.c:556-585 | The scan of the airport's list finds the first conflicting navaid, or reports that none conflicts. |
| NavaidDb.DupOf | src/navaiddb.c:553-585 | The duplicate found is another navaid at the same airport with the same type that conflicts with the new one. When none is found, nothing at that airport conflicts. |
| NavaidDb.FileWellFormed | src/navaiddb.c:587 | Filing the new navaid under its airport key keeps the database well formed. |
| NavaidDb.DropWellFormed | src/navaiddb.c:568-574 | Removing the duplicate from every index keeps the database well formed. |
| NavaidDb.DropKeepsArptLists | src/navaiddb.c:573 | After the removal, every per-airport list is still duplicate free and holds only navaids of its own key. |
| NavaidDb.ReplaceDupWellFormed | src/navaiddb.c:546-588 | Replacing a duplicate keeps the database well formed and keeps the new navaid. |
| NavaidDb.ReplaceDupRemovesAtMostOne | src/navaiddb.c:546-588 | With no duplicate nothing is removed. Otherwise exactly that one navaid leaves the list and the pool. The new navaid is filed under its airport either way. |
| NavaidDb.ReplaceDupRemovesConflict | src/navaiddb.c:546-588 | If any navaid at the airport conflicts with the new one, a duplicate is removed. |
| NavaidDb.ReplaceDup | src/navaiddb.c:546-588 | No navaid is added or changed. The only navaid that can leave the pool is the conflicting duplicate found for the new one. The new navaid stays in the pool and is filed under its airport. |
| NavaidDb.InsertNav | src/navaiddb.c:632-669 | Inserting a parsed navaid keeps the database well formed. |
| NavaidDb.Appended | src/navaiddb.c:661-664 | The new navaid is added under a fresh handle at the end of the list. Every navaid already held is kept. |
| NavaidDb.RetuneWellFormed | src/navaiddb.c:655-656 | Replacing the frequency of the navaid found keeps the database well formed. |
| NavaidDb.AppendFresh | src/navaiddb.c:661-664 | Adding a navaid under a fresh handle keeps the database well formed. |
| NavaidDb.FirstEntryWins | src/navaiddb.c:643-658 | When the navaid is already known, nothing is added. At most the known navaid's frequency is replaced, and only when the file is a navdata file. |
| NavaidDb.NewNavaidAppended | src/navaiddb.c:661-669 | An unknown navaid is added. The list grows by at most one entry, and it loses at most the replaced duplicate. |
| NavaidDb.VersionCheckAsWrittenAcceptsNewer | src/navaiddb.c:611-617 | The check as written accepts version 1200, which the maximum supported version of 1100 should reject. |
| NavaidDb.VersionChecks | src/navaiddb.c:37-38 | Between the minimum and maximum of 1100, only 1100 is supported. The check as written accepts every version from 1100 up. |
| NavaidDb.VersionOkAsWritten | src/navaiddb.c:611-613 | As written, the check accepts every version from 1100 up. |
| NavaidDb.VersionOk | src/navaiddb.c:37-38 | The corrected check accepts exactly version 1100. |
| NavaidDb.InsertLine | src/navaiddb.c:624-670 | One line of a file keeps the database well formed. |
| NavaidDb.InsertLines | src/navaiddb.c:624-670 | The whole line loop keeps the database well formed. |
| NavaidDb.InsertLinesSnoc | src/navaiddb.c:624-670 | The lines are processed one at a time, in file order. |
| NavaidDb.ParseEarthNav | src/navaiddb.c:599-680 | A file succeeds exactly when it exists and its version header passes the check as written (1100 or above). A failed file leaves the database emptied, and a successful one keeps it well formed. |
| NavaidDb.InsertNavKeepsUnfiled | src/navaiddb.c:632-669 | A navaid held without an airport entry is never removed by a later insertion. |
| NavaidDb.UnfiledAfterReplace | src/navaiddb.c:546-588 | Duplicate replacement never removes a navaid held without an airport entry. |
| NavaidDb.LinesKeepUnfiled | src/navaiddb.c:624-670 | No number of lines removes a navaid held without an airport entry. |
| NavaidDb.LoadSource | src/navaiddb.c:714-733 | Loading one optional source keeps the database well formed. |
| NavaidDb.Create | src/navaiddb.c:683-747 | A database that `navaiddb_create` returns is well formed. |
| NavaidDb.CreateSucceeds | src/navaiddb.c:726-747 | Creation succeeds exactly when the custom navdata or else the default data file has a version header of 1100 or above, as the check is written. |
| NavaidDb.FirstConflictAt | src/navaiddb.c:556-585 | The first conflicting position is the one the scan stops at. |
| NavaidDb.ScanForConflict | src/navaiddb.c:556-585 | The loop over the airport's list finds the first conflicting navaid. |
| NavaidDb.NavaidDbState.constructor | src/navaiddb.c:683-703 | A new database is empty. |
| NavaidDb.NavaidDbState.Flush | src/navaiddb.c:125-142 | `navaids_flush` empties every index. |
| NavaidDb.NavaidDbState.ReplaceArptDuplicate | src/navaiddb.c:546-588 | The in-place replacement leaves the state of the specification and keeps it well formed. |
| NavaidDb.NavaidDbState.Insert | src/navaiddb.c:632-669 | The in-place insertion leaves the state of the specification and keeps it well formed. |
| NavaidDb.NavaidDbState.InsertLineOf | src/navaiddb.c:627-670 | One line in place, as specified. |
| NavaidDb.NavaidDbState.ParseFile | src/navaiddb.c:599-680 | `parse_earth_nav` in place: the state and the success flag are those of `ParseEarthNav`, so a file with a version of 1100 or above succeeds. |
| NavaidDb.NavaidDbState.InsertAllLines | src/navaiddb.c:624-670 | The line loop in place, as specified. |
| NavaidDb.CreateDb | src/navaiddb.c:683-747 | Returns a fresh database exactly when creation succeeds, holding the specified state. |
| NavaidDb.LoadInto | src/navaiddb.c:714-744 | Loading one source in place, as specified. |
| NavaidDb.NavaidSelect | src/navaiddb.c:796-802 | A navaid is selected exactly when it matches every filter given: identifier, frequency and type mask. |
| NavaidDb.SelectByOneType | src/navaiddb.c:796-802 | Filtering by one type's bit selects exactly the navaids of that type. |
| NavaidDb.Type2Str | src/navaiddb.c:975-999 | Every type has a non-empty name, and "TLS" names exactly the LTP type. |
| NavaidDb.Type2StrRoundTrip | src/navaiddb.c:975-999 | The names identify the types: reading a name back gives the type. |
| NavaidDb.Str2Type | src/navaiddb.c:975-999 | A name read back to a type is that type's name. |
| NavaidDb.Vor2Dme | src/navaiddb.c:1007-1012 | 108 MHz maps to 1041 MHz and 118 MHz to 1150 MHz, and the VOR band maps into that range. |
| NavaidDb.ActFreq | src/navaiddb.c:1015-1025 | A glideslope transmits on 332 MHz. Types other than GS and DME transmit on the reference frequency. |
| NavaidDb.DmeFreqBand | src/navaiddb.c:1008-1025 | Across the VOR band 108-118 MHz, the DME estimate rises monotonically from 1041 to 1150 MHz. |
| NavRadio.MorseTableCodes | src/navrad.c:132-169 | The table has 36 entries, each one to five dots and dashes. |
| NavRadio.MorseCode | src/navrad.c:234-239 | A character has a code exactly when it is a digit or an upper-case letter. |
| NavRadio.IdChunksSnoc | src/navrad.c:230-256 | Keying one more character appends that character's chunks. |
| NavRadio.SymbolsChunksLength | src/navrad.c:241-252 | A symbol takes at most four chunks. |
| NavRadio.IdChunksLength | src/navrad.c:230-256 | An identifier takes at most 21 chunks per character. |
| NavRadio.IdChunks | src/navrad.c:230-256 | A non-empty keying ends with an off-chunk. |
| NavRadio.IdChunksOnOff | src/navrad.c:230-256 | Every chunk an identifier keys is on or off. |
| NavRadio.IdChunksSilent | src/navrad.c:230-256 | An identifier keys nothing exactly when none of its characters has a Morse code. |
| NavRadio.CharChunks | src/navrad.c:230-256 | A character with a Morse code keys its letter, which ends with an off-chunk. A character without one keys nothing. |
| NavRadio.CharChunksLength | src/navrad.c:230-256 | A character takes at most 21 chunks. |
| NavRadio.KeyedId | src/navrad.c:230 | Only a prefix of at most five characters of the identifier is keyed. |
| NavRadio.Encoding | src/navrad.c:224-257 | The encoding is exactly 110 chunks long. |
| NavRadio.EncodingLeavesPause | src/navrad.c:224-257 | Keying ends before chunk 105, so every cycle ends in silence and no write goes past the buffer (the assertion at the end of the loop). |
| NavRadio.EncodingUsesFiveChars | src/navrad.c:230 | Characters after the fifth do not change the encoding. |
| NavRadio.SkippedCharAddsNothing | src/navrad.c:238-239 | A character without a code adds nothing, not even a gap. |
| NavRadio.LetterFraming | src/navrad.c:241-254 | A letter starts with an on-chunk and ends with two off-chunks: the symbol gap and the letter gap. |
| NavRadio.OnCountAppend | src/navrad.c:241-252 | On-chunks add up over concatenation. |
| NavRadio.SymbolOnChunks | src/navrad.c:242-250 | A dash keys three on-chunks and a dot one. |
| NavRadio.LetterOnChunks | src/navrad.c:241-252 | A letter keys three on-chunks per dash and one per dot. |
| NavRadio.EncodingOf | src/navrad.c:224-257 | A buffer that starts with the keyed identifier and is zero after it is the encoding. |
| NavRadio.EncodeChunks | src/navrad.c:224-257 | The in-place keying loop fills a fresh 110-chunk buffer with exactly the encoding. |
| NavRadio.KeyId | src/navrad.c:230-256 | The character loop keys exactly the identifier's chunks into a cleared buffer, and the rest of the buffer stays zero. |
| NavRadio.KeyChar | src/navrad.c:230-256 | One character pass appends that character's chunks and leaves the rest of the buffer zero. |
| NavRadio.KeyLetter | src/navrad.c:241-254 | The symbol loop appends the letter's chunks and leaves the rest zero. |
| NavRadio.KeySymbol | src/navrad.c:242-251 | One symbol writes its on-chunks and skips its gap. |
| NavRadio.Lookup | src/navrad.c:315 | `avl_find` returns an entry for that navaid, or None exactly when the navaid is not held. |
| NavRadio.LookupSorted | src/navrad.c:315 | In the ordered tree, every entry is what the search finds for its navaid. |
| NavRadio.NotHeld | src/navrad.c:315 | A navaid that is not held is at no position. |
| NavRadio.KeepCurrent | src/navrad.c:328-337 | The removal loop keeps exactly the entries not marked outdated. |
| NavRadio.KeepCurrentSorted | src/navrad.c:328-337 | Removing entries keeps the tree ordered and valid. |
| NavRadio.QuerySetSnoc | src/navrad.c:310 | The query's navaids are taken one at a time. |
| NavRadio.InsertIndex | src/navrad.c:322 | Where each entry lands when `avl_insert` adds one at the search position. |
| NavRadio.InsertAt | src/navrad.c:322 | Inserting at the search position keeps the order and adds exactly the new navaid. |
| NavRadio.Remark | src/navrad.c:324 | Changing an entry's mark keeps the tree and its navaids. |
| NavRadio.ProgressStart | src/navrad.c:304-308 | After every entry is marked outdated, the refresh has seen nothing. |
| NavRadio.ProgressInsert | src/navrad.c:316-322 | Inserting a new navaid advances the refresh by that navaid. |
| NavRadio.ProgressRemark | src/navrad.c:323-325 | Marking a held navaid current advances the refresh by that navaid. |
| NavRadio.ProgressDone | src/navrad.c:328-337 | After the removal, the tree holds exactly the navaids seen. All of them are current and carried over or freshly keyed. |
| NavRadio.KeptCarried | src/navrad.c:328-337 | Every entry kept is current and was carried over or freshly keyed. |
| NavRadio.KeptHandles | src/navrad.c:328-337 | The entries kept are exactly the navaids seen. |
| NavRadio.NavaidTree.constructor | src/navrad.c:536-539 | A new tree is empty and valid. |
| NavRadio.NavaidTree.Flush | src/navrad.c:284-291 | `flush_navaid_tree` leaves the tree empty. |
| NavRadio.NavaidTree.MarkOutdated | src/navrad.c:304-308 | Every entry is marked outdated and nothing else changes. |
| NavRadio.NavaidTree.Find | src/navrad.c:315 | The search finds the navaid exactly when it is held. Otherwise it returns the insertion position between smaller and larger navaids. |
| NavRadio.NavaidTree.RemoveOutdated | src/navrad.c:328-337 | The removal loop leaves exactly the current entries, in order. |
| NavRadio.NavaidTree.Refresh | src/navrad.c:294-340 | After a refresh the tree holds exactly the navaids of the query. Each is current, and is either carried over unchanged or new with a freshly keyed identifier and a cursor in the cycle. |
| NavRadio.NavaidTree.AddOne | src/navrad.c:310-326 | One pass of the query loop advances the refresh by that navaid. |
| NavRadio.NavaidTree.Strongest | src/navrad.c:586-623 | The loop as written: the winner is the entry `StrongestAsWritten` picks, reported with its level, or none exactly when `StrongestAsWritten` finds none. |
| NavRadio.StrongestAsWritten | src/navrad.c:594-611 | The winner as written is a position in the tree. |
| NavRadio.PickAsWrittenFromClear | src/navrad.c:594-607 | The loop as written ends like the corrected loop, except that it has no runner-up while the first navaid heard is still the strongest. |
| NavRadio.StrongestAsWrittenMeans | src/navrad.c:594-611 | Nothing heard gives no winner. A winner is heard and the loudest; unless it is the first navaid heard, it is at least 16 dB above every other navaid heard. No winner means every navaid heard has another within 16 dB. |
| NavRadio.Verdict | src/navrad.c:610-612 | A winner is the strongest pick, at least 16 dB above the runner-up when there is one. A strongest pick is rejected only for a runner-up within 16 dB. |
| NavRadio.FirstLoudestWins | src/navrad.c:594-611 | When the first navaid heard is the loudest, it wins, however close the others are. |
| NavRadio.NavaidTree.LoudestDb | src/navrad.c:814-817 | The first loop computes the loudest level, never below the audio noise floor. |
| NavRadio.NavaidTree.AudioTick | src/navrad.c:801-850 | Every cursor advances one chunk, wrapping after 110. The mixed tones are those keyed at the new cursor above the noise floor, scaled by the span from the loudest level. The noise level is as specified. |
| NavRadio.NavaidTree.AdvanceAt | src/navrad.c:823-838 | One pass moves only entry i's cursor and yields its tone. |
| NavRadio.NavaidTree.AdvanceCursors | src/navrad.c:821-839 | The second loop advances every cursor and mixes every tone. |
| NavRadio.PickAsWritten | src/navrad.c:594-607 | The loop as written picks positions inside the tree, with a runner-up distinct from the winner. |
| NavRadio.PickClear | src/navrad.c:594-607 | The corrected loop also picks valid, distinct positions. |
| NavRadio.StrongestClear | src/navrad.c:594-611 | The corrected winner is a position in the tree. |
| NavRadio.PickClearMeans | src/navrad.c:594-607 | There is no winner exactly when nothing is heard. The winner is the first loudest navaid heard, and the runner-up is the loudest of the others. |
| NavRadio.StrongestClearMeans | src/navrad.c:594-611 | A winner is heard and at least 16 dB above every other navaid heard. When there is none, every navaid heard has another within 16 dB. |
| NavRadio.PicksAgreeOnStrongest | src/navrad.c:594-607 | Both loops agree on the strongest navaid; they differ only in the runner-up. |
| NavRadio.StrongestAsWrittenDependsOnOrder | src/navrad.c:594-611 | As written, levels of -10 and -12 dB give a winner in one tree order and none in the other. |
| NavRadio.MaxDb | src/navrad.c:814-817 | The loudest level bounds every entry and is never below -60 dB. |
| NavRadio.NoiseLevel | src/navrad.c:818-819 | The noise level is in (0, 1], and it is 1 when the loudest level is within 1 dB of the audio floor. |
| NavRadio.Advance | src/navrad.c:823-825 | The cursor moves on by one and wraps to 0 after chunk 109. |
| NavRadio.Advanced | src/navrad.c:821-826 | Advancing keeps the number of entries. |
| NavRadio.AdvancedSnoc | src/navrad.c:821-826 | The entries are advanced one at a time, in tree order. |
| NavRadio.AdvancedAt | src/navrad.c:821-826 | Each entry is advanced on its own. |
| NavRadio.AdvanceStep | src/navrad.c:821-839 | One pass of the loop extends the advanced prefix and its tones. |
| NavRadio.AdvancedKeepsTree | src/navrad.c:821-826 | Advancing the cursors keeps the tree ordered, valid and holding the same navaids. |
| NavRadio.AdvancedKeepsLevels | src/navrad.c:821-826 | Only the cursors move. |
| NavRadio.AdvancedKeepsLoudest | src/navrad.c:814-826 | The loudest level is the same before and after the advance. |
| NavRadio.MaxDbLevels | src/navrad.c:814-817 | The loudest level depends only on the levels. |
| NavRadio.TonesSnoc | src/navrad.c:827-838 | One more entry adds its tone, if it has one. |
| NavRadio.Tones | src/navrad.c:827-838 | There is at most one tone per navaid, and every tone has a positive level. |
| NavRadio.ToneLevels | src/navrad.c:827-838 | With a span covering every level, each tone's level is in (0, 1] and belongs to a navaid held. |
| NavRadio.AudioTickLevels | src/navrad.c:818-838 | With the span taken from the loudest level, every mixed tone's level is in (0, 1]. |
| NavRadio.RefreshedTreeMatchesQuery | src/navrad.c:299-300 | A tree refreshed from a query for one frequency and type holds only navaids of that type on that frequency. |
| NavRadio.Radio.constructor | src/navrad.c:532-539 | A radio starts with empty VOR and DME trees. |
| NavRadio.Radio.RefreshList | src/navrad.c:343-356 | On a valid VOR frequency both trees are refreshed to exactly their queries. Otherwise both trees are flushed. |
| Plugin.TrimXpdir | plugin/libradio_plugin.c:104-110 | The system path loses exactly one trailing separator, slash or backslash, when it has one. |
| Plugin.TrimXpdirUndoesSep | plugin/libradio_plugin.c:106-110 | Trimming a path with a separator appended gives the path back. |
| Plugin.TrimXpdirKeepsPlain | plugin/libradio_plugin.c:106-110 | A path without a trailing separator is left alone. |
| Plugin.TrimXpdirRemovesOnlyOne | plugin/libradio_plugin.c:106-110 | A doubled separator loses only one of its two characters. |
| Plugin.LastSep | plugin/libradio_plugin.c:117 | `strrchr` finds the last separator, or reports that there is none. |
| Plugin.LastSepOfJoin | plugin/libradio_plugin.c:117-120 | In a path joined from pieces, the last separator is the one before the last piece. |
| Plugin.CutLastComponent | plugin/libradio_plugin.c:116-118 | Cutting off the file name keeps a prefix of the path. |
| Plugin.StripArchDir | plugin/libradio_plugin.c:119-126 | Cutting off an architecture directory keeps a prefix of the path. |
| Plugin.PluginDirDropsArch | plugin/libradio_plugin.c:116-126 | For `<dir>/<arch>/<file>` with arch 64, 32, win_x64, mac_x64 or lin_x64, the plugin directory is `<dir>`. |
| Plugin.PluginDirKeepsOther | plugin/libradio_plugin.c:116-126 | For `<dir>/<sub>/<file>` with any other sub, the plugin directory is `<dir>/<sub>`. |
| Plugin.PluginDir | plugin/libradio_plugin.c:116-126 | The plugin directory is a prefix of the plugin's path. It is strictly shorter when the path has a separator, and the whole path when it has none. |
| Plugin.PluginState.constructor | plugin/libradio_plugin.c:42-46 | Before loading, the plugin is not started and holds no database. |
| Plugin.PluginState.Start | plugin/libradio_plugin.c:92-166 | The directories are derived from the two paths. Loading succeeds exactly when the cache, the navaid database and the radios all come up; it then holds the created database. On failure everything is unloaded again. |
| Plugin.PluginState.LoadAll | plugin/libradio_plugin.c:140-165 | The loading steps run in order, and the first failure unloads through `XPluginStop`. |
| Plugin.PluginState.SeedRng | plugin/libradio_plugin.c:131-134 | The generator is initialised and seeded with the given seed. |
| Plugin.PluginState.OpenDb | plugin/libradio_plugin.c:150-154 | A database handle is held exactly when creation succeeds, and it is NULL otherwise. |
| Plugin.PluginState.SetDirs | plugin/libradio_plugin.c:104-126 | The in-place truncations leave exactly the trimmed system directory and the derived plugin directory. |
| Plugin.PluginState.Stop | plugin/libradio_plugin.c:169-190 | A stop clears the started flag. If the plugin was started, it shuts the radios down and forgets the database; otherwise it changes nothing, so a second stop is harmless. |
| RadioModel.ElevSampleEndpoints | src/java/RadioModel.c:53 | Sample 255 is -418 m and sample 0 is 8848 m. |
| RadioModel.ElevSampleNonIncreasing | src/java/RadioModel.c:53 | Higher samples mean lower or equal elevations. |
| RadioModel.ElevSampleRange | src/java/RadioModel.c:53 | Every sample decodes to an elevation between -418 and 8848 m. |
| RadioModel.ElevSample2Met | src/java/RadioModel.c:53 | Every sample decodes to between -418 and 8848 m. |
| RadioModel.LastDot | src/java/RadioModel.c:197-201 | `strrchr(filename, '.')` finds the last dot, or reports that there is none. |
| RadioModel.FileExtIsSuffix | src/java/RadioModel.c:197-201 | For an extension without a dot, the check holds exactly when the name ends in a dot followed by the extension and has something before it. |
| RadioModel.FileExt | src/java/RadioModel.c:197-201 | The check holds exactly when the text after the last dot of the name is the extension. |
| RadioModel.ParseTileName | src/java/RadioModel.c:331-334 | A tile name is accepted exactly when it has 15 characters and a png extension, and starts with two integers that are a valid latitude and longitude; those integers are the result. |
| RadioModel.TileSlotAsWrittenLeavesTable | src/java/RadioModel.c:336-343 | As written, a tile named for latitude 90 passes the checks yet addresses row 18 of an 18-row table. |
| RadioModel.TileSlotAsWritten | src/java/RadioModel.c:336-337 | The floor of a tenth equals integer division by ten, so the slot is (lat div 10 + 9, lon div 10 + 18). |
| RadioModel.TileNameSlot | src/java/RadioModel.c:336-343 | The corrected slot always lies inside the table. |
| RadioModel.TileNameSlotInTable | src/java/RadioModel.c:336-343 | Every tile name below latitude 90 and longitude 180 gets the slot the code computes. |
| RadioModel.TileLookupAsWrittenLeavesTable | src/java/RadioModel.c:478-486 | As written, the position lookup turns latitude 90 into row 18 and longitude 180 into column 36, past the table. |
| RadioModel.TileRow | src/java/RadioModel.c:478-480 | The corrected row is inside the table with a fraction in [0, 1]. Below latitude 90 it is the row the code computes. |
| RadioModel.TileCol | src/java/RadioModel.c:479-481 | The corrected column is inside the table with a fraction in [0, 1]. Below longitude 180 it is the column the code computes. |
| RadioModel.TileSlotMatchesLookup | src/java/RadioModel.c:336-486 | A position inside the tile named (lat, lon) is looked up in the slot that tile was stored in. |
| RadioModel.MaskColumn | src/java/RadioModel.c:458-459 | The mask column lies in [0, 1999]; the west edge is column 0 and the east edge column 1999. |
| RadioModel.MaskRow | src/java/RadioModel.c:460-461 | The mask row lies in [0, 1999]; the north edge is row 0 and the south edge row 1999. |
| RadioModel.MaskColumnAtPixel | src/java/RadioModel.c:458-459 | Each pixel's own fraction maps back to that pixel's column. |
| RadioModel.WaterMaskRead | src/java/RadioModel.c:456-473 | Without a mask there is no water. With one, the result is the bit at the rounded column and row. |
| RadioModel.Neighbours | src/java/RadioModel.c:442-443 | The two neighbouring samples are in range, in order, and the fraction between them is in [0, 1). |
| RadioModel.ColumnCoord | src/java/RadioModel.c:437 | The column coordinate is clamped to the tile. |
| RadioModel.RowCoord | src/java/RadioModel.c:441 | The row coordinate is clamped to the tile. |
| RadioModel.ElevFilterLinBounded | src/java/RadioModel.c:435-453 | Bilinear filtering never leaves the range of the tile's samples. |
| RadioModel.ElevFilterLinCorners | src/java/RadioModel.c:435-453 | The north-west corner reads the first sample of the first row, and the south-west corner the first sample of the last row (rows run north to south). |
| RadioModel.FractLat | src/java/RadioModel.c:480 | The in-tile latitude fraction is in [0, 1]. |
| RadioModel.FractLon | src/java/RadioModel.c:481 | The in-tile longitude fraction is in [0, 1]. |
| RadioModel.ElevAt | src/java/RadioModel.c:476-501 | Where there is no tile the elevation is 0. |
| RadioModel.WaterWritten | src/java/RadioModel.c:495-498 | The water flag is written exactly when a tile is present. |
| RadioModel.WaterAt | src/java/RadioModel.c:476-501 | The corrected water flag is false where there is no tile, and otherwise the flag the code writes. |
| RadioModel.WaterAtAsWrittenReadsJunk | src/java/RadioModel.c:487-488 | As written, where there is no tile the flag keeps whatever the caller's memory held. The corrected flag is false. |
| RadioModel.WaterAtAsWritten | src/java/RadioModel.c:487-488 | Where a tile is loaded the flag is the mask bit. Elsewhere it is whatever the memory held. |
| RadioModel.ReliefPoint | src/java/RadioModel.c:510-517 | Each profile point is a valid position. The first is station 1 and the last is station 2. |
| RadioModel.ReliefProfile | src/java/RadioModel.c:504-519 | The profile has one elevation per point, and it starts and ends at the two stations' elevations. |
| RadioModel.ReliefWater | src/java/RadioModel.c:504-519 | One water flag per point, starting with station 1's. |
| RadioModel.ReliefConstruct | src/java/RadioModel.c:504-519 | The loop fills both arrays with exactly the specified profile and water flags. |
| RadioModel.CountTrue | src/java/RadioModel.c:600-601 | The water count never exceeds the number of points. |
| RadioModel.WaterFraction | src/java/RadioModel.c:600-602 | The water fraction is in [0, 1]. |
| RadioModel.WaterFract | src/java/RadioModel.c:600-602 | The summing loop computes exactly the water fraction. |
| RadioModel.WaterFractionExtremes | src/java/RadioModel.c:600-602 | All land gives 0 and all water gives 1. |
| RadioModel.CountTrueExtremes | src/java/RadioModel.c:600-601 | All land counts 0 and all water counts every point. |
| RadioModel.LinkDist | src/java/RadioModel.c:579-580 | The distance is clamped to [1000 m, max_dist]. |
| RadioModel.NumPts | src/java/RadioModel.c:594 | The profile has between 2 and max_pts points. |
| RadioModel.ItmParams | src/java/RadioModel.c:603-607 | Both antenna heights are at least 3 m and at least the station's height over its terrain. Conductivity and permittivity lie between the ground and fresh-water values. |
| RadioModel.P2PLevel | src/java/RadioModel.c:569-636 | Both stations need only lie on the map; their elevations are not checked. The received level is never below `recv_min_gain`, and it is exactly that when the stations are `max_dist` or more apart. |
| RadioModel.P2PTerrain | src/java/RadioModel.c:619-632 | For any two on-map stations, whatever their elevations, the reported terrain is the elevation under station 1. |
| RadioModel.TerrColorIndex | src/java/RadioModel.c:693 | The colour index is inside the 22-entry table. |
| RadioModel.TerrColorBands | src/java/RadioModel.c:666-695 | Index k (1 to 20) covers exactly the elevations from k*1000 - 500 to k*1000 + 500 ft. Below 500 ft is index 0 and from 20500 ft on is index 21. |
| RadioModel.GetTerrColor | src/java/RadioModel.c:666-695 | The colour is one of the 22 table colours. Below 500 ft it is the first colour, and from 20500 ft up it is the last. |
| RadioModel.PixelPos | src/java/RadioModel.c:703-704 | The centre pixel lies at the window centre. Column 0 lies half a range west of it and row 0 half a range north of it. |
| RadioModel.PaintSta1 | src/java/RadioModel.c:719-724 | Station 1 sits at the pixel's position. Its elevation is `sta1_elev`, counted above the terrain there only when `sta1_agl` is set. |
| RadioModel.PaintLink | src/java/RadioModel.c:719-726 | The link handed to `p2p_impl` runs from the pixel's station 1 to the station being painted, and both ends lie on the map. |
| RadioModel.PaintLevel | src/java/RadioModel.c:703-726 | A pixel more than 5 degrees from the station gets no level. Otherwise the level is never below `recv_min_gain`, and it is exactly that at `max_dist` or beyond. |
| RadioModel.PaintSta1CanExceedElevRange | src/java/RadioModel.c:719-724 | 29000 m above terrain higher than 1000 m is a valid `sta1_elev`, yet the resulting station 1 lies outside the elevation range `pointToPoint` enforces. |
| RadioModel.PaintArgsAcceptOffMapPixels | src/java/RadioModel.c:769-833 | As written, the checks accept a window centred at longitude 175 that is 40 degrees wide, whose pixel 3 lies east of 180. |
| RadioModel.WindowOnMapPixelsValid | src/java/RadioModel.c:828-833 | With the window kept on the map, every pixel's position is a valid latitude and longitude. |
| RadioModel.PaintArgsCheck | src/java/RadioModel.c:769-823 | The checks run in the code's order, and each error is reported exactly when every earlier check passes and its own fails: not initialised, bad frequency, bad station 1 or centre, length mismatch, bad range (with the added window check when asked for), bad pixel size, gain too low. Once those pass, any bad station 2 is reported, at its first index. Painting proceeds exactly when every check passes. |
| RadioModel.InitParams | src/java/RadioModel.c:281-307 | Zero selects each default. Otherwise the value is kept. An error names a range check that fails, and every check before it passes. |
| RadioModel.DecodeElevations | src/java/RadioModel.c:372-373 | The decoding loop produces exactly the decoded alpha channel. |
| RadioModel.Elevations | src/java/RadioModel.c:372-373 | One elevation per pixel. |
| RadioModel.LoadAllSnoc | src/java/RadioModel.c:323-385 | Directory entries are processed one at a time, in order. |
| RadioModel.LoadStepAt | src/java/RadioModel.c:331-378 | After an error nothing changes. A stored tile is never replaced. A new tile can only be the current file's, in its own slot, and a second file for a stored slot stops loading with an error. |
| RadioModel.LoadAllStopsAtError | src/java/RadioModel.c:344-358 | After the first error, later entries change nothing. |
| RadioModel.TileOfValid | src/java/RadioModel.c:363-377 | A decoded PNG with its mask makes a valid tile. |
| RadioModel.LoadAllWellFormed | src/java/RadioModel.c:323-385 | Every stored tile is in a slot of the table and is valid. |
| RadioModel.LoadAllContains | src/java/RadioModel.c:323-385 | When loading succeeds, every tile file found is stored in its slot. |
| RadioModel.StepKeepsTiles | src/java/RadioModel.c:343-377 | A successful step never loses a stored tile. |
| RadioModel.StepAddsTile | src/java/RadioModel.c:343-377 | A successful step on a tile name stores that tile. |
| RadioModel.LoadAllNoDuplicates | src/java/RadioModel.c:344-349 | When loading succeeds, no two tile files name the same slot. |
| RadioModel.TileBytes | src/java/RadioModel.c:424-427 | An empty slot contributes no bytes. |
| RadioModel.NoTilesNoBytes | src/java/RadioModel.c:422-429 | With no tiles loaded the count is zero. |
| RadioModel.RadioModelState.constructor | src/java/RadioModel.c:73-79 | The model starts not initialised, with no tiles. |
| RadioModel.RadioModelState.Init | src/java/RadioModel.c:260-391 | A second `init` fails and changes nothing. Bad parameters fail and change nothing. Otherwise the model is initialised with the parameters, and the tiles and error are those of loading the directory (no directory: an error and no tiles). |
| RadioModel.RadioModelState.LoadDir | src/java/RadioModel.c:323-385 | The directory loop leaves the table holding exactly the loaded tiles and reports the loading error. |
| RadioModel.RadioModelState.LoadEntry | src/java/RadioModel.c:331-377 | One directory entry, as specified. |
| RadioModel.RadioModelState.Fini | src/java/RadioModel.c:394-412 | After `fini` the model is not initialised and holds no tiles; `fini` before `init` changes nothing. |
| RadioModel.RadioModelState.CountBytes | src/java/RadioModel.c:414-432 | The byte count is the sum over the table reduced to a 32-bit `int`, exactly the sum when that fits, and zero before `init`. |
| RadioModel.SumTileBytes | src/java/RadioModel.c:416-431 | The loop's `int` total is the sum of the bytes of every slot, reduced to 32 bits. |
| RadioModel.CountStep | src/java/RadioModel.c:425-426 | Adding one slot's bytes to the `int` count keeps it the wrapped sum of the slots counted so far. |
| RadioModel.BytesUpToStep | src/java/RadioModel.c:421-428 | Row-major counting adds slot (lat, lon) right after the slots before it. |
| Common.WrapI32 | src/java/RadioModel.c:416-428 | Reduction into an `int` lands in the 32-bit range, keeps values already in it and differs by a multiple of 2^32. |
| Common.WrapI32Add | src/java/RadioModel.c:425-426 | Wrapping after each addition gives the wrapped total. |
| Common.WrapI32Congruent | src/java/RadioModel.c:425-426 | Values that differ by a multiple of 2^32 wrap to the same `int`. |
| RadioModel.RadioModelState.P2P | src/java/RadioModel.c:569-636 | For any two on-map stations, the level is the specified one, never below `recv_min_gain`. Terrain is reported exactly when asked for. |
| RadioModel.RadioModelState.PointToPoint | src/java/RadioModel.c:638-663 | The level is computed exactly when the model is initialised, the frequency is 20-20000 MHz and both stations are valid. The first failing check of the three is the error: not initialised, bad frequency, bad coordinates. |

## Left out

- Distortion.Distorter.RunChunks: states the counts, the capacity and the kept prefix across the loop, not the contents of each chunk written. Each pass is stated exactly by `ProcessChunk`.
- Distortion.Distorter.Process: states the counts and the kept output prefix as `RunChunks` does, not the new output contents.
- Distortion.Distorter.Impl: states the output length and the recorded settings. Its steps `Feed`, `Process` and `Drain` state the contents.
- The FFT equaliser (`distort_EQ`), the noise randomiser and the compressor are not part of this model. They enter `Distortion` as the function parameters `ChunkFx` and `Compressor`, which keep the sample count.
- `distort` itself (copying through a temporary buffer) and `distort_fini` only move or free memory.
- Samples are integers. The 16-bit wrap of the sample additions and the floating point of the blend weights are not modelled beyond `Trunc`.
- The ITM engine (`point_to_pointMDH`) is the parameter `Engine`. Only the packing around it is modelled.
- The ECEF chord length (`geo2ecef_mtr`, `vect3_abs`) is the parameter `Chord` in both `RadioModel` and `NavaidDb`.
- Floating point is modelled as exact reals throughout.
- The frequency validity checks of libacfutils (`is_valid_ndb_freq`, `is_valid_vor_freq`, `is_valid_loc_freq`) enter as the predicates `FreqChecks`. libacfutils is not part of this model. The ranges of `is_valid_lat`, `is_valid_lon`, `is_valid_elev` and `is_valid_hdg` are written out.
- PNG decoding, the shapefile water-mask rasterisation (`load_water_mask`) and directory reading enter as `DirEntry` values. PNG writing at the end of `paintMapMulti` is not modelled.
- `paint_impl`'s pixel colour arithmetic is not modelled. Its position formula is (`PixelPos`), and so is its call to the point-to-point level (`PaintLevel`).
- JNI exceptions are the error datatypes `InitError`, `P2PError` and `PaintError`. String and array marshalling is not modelled.
- `navaiddb_query`, `navaids_gather` and `loc_align_with_rwy` (the spatial search and runway alignment) are not modelled. A query enters `NavRadio` as its list of navaid handles, already filtered by `NavaidSelect`.
- `navaiddb_find_conflict_same_arpt` and `navaiddb_get_xp_elev` are not modelled.
- The navaid AVL trees and hash table are modelled as a pool of handles with an ordered list and a map per airport key. Lookups search linearly.
- The radio trees are ordered by navaid handle, where the source orders them by pointer.
- The signal computation (`radio_navaid_recompute_signal`), bearings, radials and DME readouts are not modelled. The worker thread, flight-loop callbacks, datarefs and mutexes are not modelled either. Levels enter as entry fields.
- The 1 kHz tone samples are not modelled. `navrad_get_audio_buf` is modelled up to the tones and levels it mixes, and its call into the distorter is not modelled.
- `navrad_init`/`navrad_fini` are modelled as the `navradUp` flag of the plugin state. Whether OpenGPWS answers is the parameter `gpwsFound`.
- The airport database and cache rebuild (`airportdb_create`, `recreate_cache`) are the parameter `cacheOk`. Logging and `fix_pathsep` are not modelled.
- The seed from `osrand` or the clock is the parameter `seed`. Because the seed is free, `Refresh` states the new cursors only as lying inside the cycle.
- `fscanf` of the file header and `getline` enter as `NavFile`: an optional version and the lines.
- CParse.AtoF: reads decimal notation only (an optional sign, digits, and an optional fraction). The exponent form, `inf`, `nan` and hexadecimal floats that `atof` also accepts are not modelled; on such text it returns the value of the decimal prefix.
- Plugin.TrimXpdir requires a non-empty system path, as the code does when it reads the last character.
- The by-airport key is modelled as the navaid type and the airport identifier, which is what the code's comment describes. See the findings.

## Findings

| source | as written | input that shows it | evidently intended | confidence | as-written member | corrected member |
|---|---|---|---|---|---|---|
| src/java/RadioModel.c:336-343 | The tile slot is floor(lat/10) + 9 and floor(lon/10) + 18, accepted for any valid latitude and longitude. | A tile file named for latitude 90 gives row 18 of an 18-row table. | Only tiles inside the table are stored. | high, not executed | RadioModel.TileSlotAsWrittenLeavesTable | RadioModel.TileNameSlot |
| src/java/RadioModel.c:478-486 | The lookup takes floor((lat + 90)/10) and floor((lon + 180)/10). | Latitude 90 gives row 18, and longitude 180 gives column 36, both past the table. | The edges fold into the last row and column. | high, not executed | RadioModel.TileLookupAsWrittenLeavesTable | RadioModel.TileRow |
| src/java/RadioModel.c:487-488 | Where there is no tile, `tile_elev_read` returns 0 without writing the water flag, and `relief_construct` passes uninitialised memory. | A profile point over a missing tile: the water sum counts whatever the memory held. | No tile means no water. | high, not executed | RadioModel.WaterAtAsWrittenReadsJunk | RadioModel.WaterAt |
| src/java/RadioModel.c:769-833 | The checks bound the centre and the range but not the window. | Centre longitude 175 with a 40-degree range: pixel 3 lies east of 180, and the tile lookup leaves the table. | Every pixel lies on the map. | medium, not executed | RadioModel.PaintArgsAcceptOffMapPixels | RadioModel.PaintArgsCheck |
| src/navaiddb.c:611-613 | The check rejects version < MIN and version < MAX, with both 1100. | Version 1200 is accepted. | Reject versions above the maximum. | high, not executed | NavaidDb.VersionCheckAsWrittenAcceptsNewer | NavaidDb.VersionChecks |
| src/navaiddb.c:697-703 | The key spans every byte from `type` to the end of `icao`, including position, frequency, range and identifier. | Two LOCs at one airport with different identifiers and positions get different keys, so the duplicate is never looked at. | The key is type and airport, as the comment says. | medium, not executed | NavaidDb.ArptKeyAsWrittenSeparatesDuplicates | NavaidDb.ReplaceDupRemovesConflict |
| src/navrad.c:594-607 | The runner-up is only replaced once one has been set, so it depends on the tree order. | Levels -10 and -12 dB give a winner in that order and none in the reverse order. | The runner-up is the loudest of the others. | high, not executed | NavRadio.StrongestAsWrittenDependsOnOrder | NavRadio.StrongestClearMeans |
