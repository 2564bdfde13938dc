# HDDSuperClone: a verified model of its DMA tables, catalogue, session and protocols

HDDSuperClone clones failing disks. This project models five parts of it in Dafny and proves
what they promise:

* **DMA** (`Paging`, `LittleEndian`, `Pagemap`, `LowBuffer`, `Descriptors`, `DmaState`,
  `MemorySetup`). The program finds the physical pages of its transfer buffer by decoding Linux
  page-map words, and writes a scatter-gather table over them: the PRDT of section 4.2.3.3 of AHCI
  1.3.1, at offset 80h of the command table, or the PRD table of section 1.2 of "Programming
  Interface for Bus Master IDE Controller, Revision 1.0". The main result is a refinement: a controller that walks
  the bytes of the table reaches, for every offset of the buffer, exactly the byte of the page the
  page map gives, and nothing beyond the buffer. When the locator succeeded on a full read nothing
  is lost in narrowing the addresses to 32 bits, and each segment is one the hardware can transfer.
  `MemorySetup` puts the pieces together: two attempts at four searches for memory, with a driver
  installation between them that can run the whole set-up once more inside the first, and says which
  buffer the addresses belong to.
* **Language catalogue** (`Text`, `MarkerPattern`, `Rendering`, `FileParser`, `Catalogue`,
  `MemoryParser`, `Batching`). The printer, the file parser built on `fgets` and `sscanf`, the
  in-place parser over a string in memory, and the batching and escaping for the translator. The main
  results are the round trip with its exact condition, for every spelling of the markers the pattern
  accepts; the agreement of the two parsers and exactly which files and strings each one accepts; and
  the conservation of the catalogue over the batches.
* **Session** (`Sessions`, `SessionLaws`, `EventLaws`, `MemoryLaws`, `ButtonLaws`, `MainWindow`,
  `Gtk3Timer`). The state behind the main window, where GTK delivers pending events inside a running
  callback whenever the display is updated. An event is a tree: it carries the queue that is pending at
  each of its own display updates. What `Sessions` states holds for every such tree, and `EventLaws` says
  of each callback, in the fields alone, when it acts, what it leaves at each of its updates, and what in
  the end. `MainWindow` is the imperative code, flag by flag and widget by widget, proved to simulate the
  state machine. `Gtk3Timer` is the status timer of the GTK 3 window over all sequences of starts, stops
  and ticks.
* **Rebuild assist** (`RebuildAssist`). The log-page protocol against a drive that may answer
  anything.
* **Analysis and messages** (`Analyze`, `Messages`). The dead-zone scan, the zone averages, and the
  error text that callbacks collect.

## Where the code and its promises differ

* *A connection implies that everything it needs was chosen, and is one of what was checked.* With
  nested events this is not so: a callback acts on a guard that a nested callback has made false. The
  exact conditions, on the session m in which the callback acts:
  a new project strips the session of its drives if and only if m is connected
  (`SessionLaws.NewProjectLosesExactly`); an image that is picked as source costs a connected session
  what it needs if and only if the image does not open and a source is needed
  (`SessionLaws.ImageLosesExactly`), a drive the same but for auto mode, which identifying the drive
  sets once more, ending fill mode (`SessionLaws.DriveLosesExactly`); a connection that is made lacks
  something if and only if it is no longer chosen when the drives are open, and is one of what was
  checked if and only if nothing was chosen anew in between (`SessionLaws.ConnectLosesExactly`).
  `SessionLaws.NewProjectStripsConnection`, `SessionLaws.ImageSourceStripsConnection` and
  `SessionLaws.ConnectOutlivesItsProject` are runs in which it happens, from sessions that
  `SessionLaws.StartedIsReached` reaches by ordinary use. `Sessions.Deliver` shows, for runs of any
  shape, that both promises hold as long as none of these guards has gone stale, which is so in every
  run where those display updates deliver only timer ticks, stop, driver-mode changes and callbacks
  that leave the session alone.
* *The source menu is sensitive exactly when fill is off.* Opening a log also sets the fill flag, and
  only a change of mode sets the menu. `SessionLaws.MenuAgreesExactly`: after every run they agree if
  and only if fill is on exactly in fill mode; `SessionLaws.LogDecidesMenu`: opening a log makes them
  agree if and only if the flag in it does, or it has none and they agreed before;
  `SessionLaws.LogSetsFillAlone` is a run after which they do not.
* *Transfer memory is set up for the mode in force, or else a flag says it failed and nothing connects.*
  `MemoryLaws.MemoryExactly` has the condition after every run, of any shape: it is set up for the mode
  if and only if the last set-up completed and was not one for listing destinations while in a mode that
  needs more than a plain buffer. Listing destinations sets up memory that a run has used with the mode
  flags cleared (`clone_gui2.c:2470-2497`), and clears the failed flag when that works
  (`MemoryLaws.DestinationExactly`). `MemoryLaws.DestinationUnequips` is the run: in a direct mode clone,
  disconnect, choose another destination, connect. `MemorySetup.TransferMemory.SetUpForDestination` says what is
  wrong then: the addresses are those of the buffer before, so the table leads to the present buffer if
  and only if both are the driver's memory, and the sizes leave an AHCI table no room.
* *A set-up that fails is on record.* The mode callbacks ignore its result and rely on the flag
  (`hddsuperclone.c:15268-15271`). If the second attempt installs the driver afresh, the installation sets
  up the memory once more, and when that succeeds it clears the flag though the attempt then fails.
  `MemorySetup.TransferMemory.Initialize` has the exact condition, `MemorySetup.FailsUnnoticed` the input. This
  and a driver removed without a set-up after it are the ends of `MemoryLaws.MemoryExactly` in which the
  flag need not be set.
* *The driver-mode buttons are dead without a connection.* Those of modes 1, 2, 3 and 5 are. That of mode
  4 need not be wherever it is set in driver-only mode, after connecting and at the end of a clone or
  analysis run: the program goes to mode 4 first, delivers what is pending, and then makes the button
  sensitive. `ButtonLaws.LateExactly`: it is so without a connection if and only if what was delivered
  leaves none; `ButtonLaws.Mode4AfterAll`: after every run of the program, of any shape, this is the only
  way it can be. `ButtonLaws.ConnectMode4Exactly`, `ButtonLaws.StartMode4Exactly` and
  `ButtonLaws.AnalyzeMode4Exactly` have the condition for each callback; after a run that failed, which
  disconnects, it never is. `ButtonLaws.Mode4OutlivesConnection` and `ButtonLaws.DisconnectAtEndOfRun` are
  the inputs.
* *The imported catalogue equals the exported one.* `Catalogue.ImportOfExport` gives the exact
  condition, for every spelling of the markers: no piece of the file but its own markers scans as a
  marker, and no text but the last has 2047 characters ending in a newline.
  `Catalogue.FullEntryLosesNewline` says what comes back from a file that fails it. `Catalogue.RoundTrip`
  is the promised case.
* *Escaping loses nothing.* A percent sign is not escaped. `Batching.EscapeRoundTrip`: a reader that undoes
  just the two codes written here gets a text back if and only if no three consecutive characters of it
  are `%20` or `%0a`; a reader of every percent code, if and only if it has no percent sign before two
  hexadecimal digits. `Batching.CodesAreAmbiguous`: a text with one of the two codes is sent exactly as
  another one is.
* *Turning rebuild assist off keeps the two host flags equal.* It does not when the drive refuses:
  `RebuildAssist.RebuildAssist.SetRebuildAssistDisabled` says exactly when, and
  `RebuildAssist.RefusedDisable` is a drive that does.
* *The table covers every accepted buffer.* `DmaState.DmaState.SetMainBuffer` gives the condition in both
  directions. In AHCI mode an accepted buffer is covered whenever the page size divides the largest
  transfer, as the sizes the program computes make it do (`DmaState.InitialSizesFit`). In IDE mode larger
  buffers are accepted too, and the engine's walk ends if and only if the buffer is not empty and no
  larger than the largest transfer; `DmaState.LargeIdeBuffer` is one of 2 MiB with the program's own sizes.
* *The status timer has one source.* The GTK 3 window clears a flag but leaves the source.
  `Gtk3Timer.OneSourceExactly`: over every sequence of operations there is never more than one source,
  and one whenever the flag is set, if and only if every stop of a running timer is followed by a tick
  before the next start in direct mode. `Gtk3Timer.RestartsPileUp` are sequences that fail it.

## How the model is built

Globals that the code updates in place are class fields (`DmaState`, `LowBuffer`, `Catalogue`,
`TransferMemory`, `MainWindow`, `RebuildAssist`, `MessageBuffer`), byte tables and catalogue entries are
arrays, and each loop of the source is a loop with its invariants, proved against a function or a predicate
about which the lemmas are stated. Allocation, `/proc` reads, the drive and the user are parameters:
an attempt stream, a reply stream, or the answers in an event. `superbyte_ccc[11]` and
`superbyte_ccc[15]` have the values `hddsuperclone.c:658,662` give them. Integer widths are explicit
where they matter: 64-bit shift-and-add, 32-bit narrowing of addresses, 16-bit counts, signed
chars in the element mask. `clone_gui3.c` has the same catalogue and session code as `clone_gui2.c`,
so one model stands for both; its timer is modelled apart.

`Sessions` uses two subset types, `Settled` (what holds whenever an event can be delivered) and
`Sound` (the same apart from the driver-mode buttons). They say that a run implies a connection
and a stopped timer; that there is one timer source exactly when the running flag is set; that the
current connection passed its gate, on a version of the choices no newer than the present one; that a
connection not marked stale has everything it needs and is one of the present version; that the source
menu is sensitive exactly outside fill mode; that the buttons of driver modes 1, 2, 3 and 5 are dead
without a connection and in driver-only mode, and those of all modes in a clone run outside the driver
modes; that memory is what the last set-up made of it, unless the mode has changed since; that the button of
mode 4 is not sensitive without a connection unless it was left so or set so late; and that every run and
every poll on record was a proper one. A function that returns a `Settled` session thereby states
that it keeps all of this. The version counts changes of the project, the drives and the mode; an attempt
to connect notes the version its checks were about. The answers to a memory set-up are the three ends
`MemorySetup.TransferMemory.Initialize` shows it can have.

## Model

| member | source | states |
|---|---|---|
| Pagemap.EightStepsFlush | common.c:726-767 | eight 64-bit shift-and-add steps leave the word's value whatever the accumulator held before |
| Pagemap.PageAddressDropsFlags | common.c:744-746 | the address of a page-map word does not depend on its bits 52 to 63, is page aligned, and is below 2^64 |
| Pagemap.OutOfRangeZero | common.c:1147-1156 | a count of zero means that no page below the bound lies above 4 GiB |
| Pagemap.OutOfRangeCounts | common.c:1147-1156 | the count is the number of pages below the bound that lie above 4 GiB |
| Pagemap.DecodeWord | common.c:1130-1138 | the loop over one word yields that word's page address from any starting accumulator |
| LowBuffer.LowBuffer.GetPhysicalMemoryLocation | common.c:691-768 | the stored address is the first page's although the accumulator is never cleared, the result counts the pages above 4 GiB, a short read passes; the command-list and FIS copies at 835-907 and 971-1043 are the same |
| LowBuffer.LowBuffer.SetBuffer | common.c:627-685 | within 0x10000000 / table_size tries: success exactly when one of them gives memory with no page above 4 GiB and each before it gave memory that had one or could not be looked up, all tries used when every one is of that kind, and one try only in driver memory; after a full read the address is below 4 GiB; the copies at 776-828 and 914-965 are the same |
| LittleEndian.Bytes4RoundTrip | common.c:502-504 | the four stored bytes read back as the low 32 bits of the address |
| Descriptors.AhciEntryDecodes | common.c:501-526 | an adapter decoding the 16 bytes reads the low 32 address bits and DBC + 1 bytes |
| Descriptors.IdeEntryDecodes | common.c:568-602 | an engine decoding the 8 bytes reads the low 32 address bits, the length with 0 meaning 64 KiB, and the end mark |
| Descriptors.AhciTableExtends | common.c:493-526 | writing one entry and nothing else extends a table for i pages to one for i + 1, every other byte kept |
| Descriptors.IdeTableExtends | common.c:562-603 | the same for the IDE layout |
| Descriptors.DescribesRefines | common.c:482-526 | one segment a page with the last cut to the remainder maps every buffer offset to its page's byte, maps nothing beyond, and sums to the buffer size |
| Descriptors.AhciTableDescribes | common.c:480-526 | the adapter's reading of a complete AHCI table is one segment a page |
| Descriptors.AhciTableCutShort | common.c:493-499 | a table cut short at max_entries does not translate the buffer |
| Descriptors.IdeSegmentsUpToMark | common.c:592-603 | an engine stops at the first marked entry, having seen every entry up to it |
| Descriptors.IdeTableMarks | common.c:592-603 | of all positions in the table only the last page's entry is marked, and none if that page has no entry |
| Descriptors.IdeTableDescribes | common.c:541-603 | the engine's walk ends if and only if the buffer has a page and every page an entry, and then the one mark in the whole table is on the last page's entry |
| Descriptors.PageIsTransferable | common.c:493-526 | a piece of a 4 KiB page below 4 GiB is word aligned and straddles no 64 KiB boundary |
| DmaState.DmaState.DecodePagemap | common.c:1124-1160 | last page first, every page's address is stored, and the pages above 4 GiB below max_dma_size are counted |
| DmaState.DmaState.GetBufferPhysicalMemoryLocations | common.c:1049-1170 | within 4 GiB / max_dma_size tries: success exactly when one of them has no counted page above 4 GiB and every one before it was read in full and had one, which here an open or seek failure ends; all tries used when every one is of that kind, and one only in driver memory; the address array then describes the buffer of the last try whose page map was read in full, or what it did before; success on a full read leaves every address the builder narrows below 4 GiB |
| DmaState.DmaState.LocatedAfter | common.c:1147-1156 | the check's bound is the builder's max_entries, so a count of zero covers every page a table can hold |
| DmaState.DmaState.CreateDmaTable | common.c:477-620 | every byte of the table, in either layout, for any buffer size |
| DmaState.DmaState.CreateAhciTable | common.c:480-538 | entries for the first pages up to max_entries, zero elsewhere, and table_entry_count their number |
| DmaState.DmaState.CreateIdeTable | common.c:541-618 | entries for the first pages up to max_entries, the mark on the buffer's last page only, zero elsewhere |
| DmaState.DmaState.SetMainBuffer | common.c:446-474 | succeeds exactly within the size limits; then in AHCI mode the counted entries refine the page translation if and only if the table covers the buffer, in IDE mode the walk ends, by the table's only mark, exactly when it covers a non-empty buffer, which for a whole number of pages is one no larger than the largest transfer, and then refines it; when located, to the very pages, each segment transferable |
| DmaState.DmaState.AhciTableRefines | common.c:480-538 | the counted AHCI entries refine the translation if and only if they cover the buffer, and lose no address bits when the buffer is located |
| DmaState.DmaState.IdeTableRefines | common.c:541-618 | the marked IDE list exists if and only if the table covers a non-empty buffer, its last page then has the only mark, and the list refines the translation |
| DmaState.DmaState.ExactWhenLocated | common.c:1147-1156 | below 4 GiB narrowing loses nothing, and with 4 KiB pages each descriptor is below 4 GiB, aligned, inside one 64 KiB block, and of even length for an even size |
| DmaState.DmaState.MapFirstSector | hddsuperclone.c:1722-1731 | from a located buffer the table built for the first sector reaches exactly the pages in the address array, and the mapping cannot fail |
| DmaState.InitialSizesFit | hddsuperclone.c:1604-1616 | the start-up formulas give sizes for which the page size divides max_dma_size and the table fits |
| DmaState.LargestTransfer | hddsuperclone.c:1604-1616 | max_dma_size has as many pages as the table has room for 16-byte entries, the AHCI header taken off |
| DmaState.LargeIdeBuffer | common.c:446-474 | with the sizes the program starts with in direct IDE mode a buffer of 2 MiB is accepted and its table has no end mark |
| MemorySetup.TransferMemory.Attempt | hddsuperclone.c:1606-1719 | one attempt sizes the table for the driver at hand and succeeds exactly when the descriptor table, in AHCI mode the command list and the FIS area, and the main buffer each find a place; after full reads the small ones are below 4 GiB, and the address array is the located main buffer's own; outside direct mode the buffer moves and the addresses stay |
| MemorySetup.WorksByPages | common.c:627-1170 | what an attempt needs, by the page maps of its tries: a four-page table with a driver in place and a one-page one without, each small buffer within 256 MiB of tries, the main buffer within 4 GiB of them, and in driver memory at the first |
| MemorySetup.TransferMemory.InstallDriver | hddsuperclone.c:1227-1371 | the driver is there, installed and mapped afterwards whenever it was there and mapped, or is there or builds and can be mapped; there but neither installed nor mapped when it cannot be mapped; as before when it is neither there nor builds; a fresh one in the graphical program sets up the memory in between and so decides both flags |
| MemorySetup.TransferMemory.Initialize | hddsuperclone.c:1583-1752 | succeeds exactly when the first attempt does or, in direct mode, the second with the driver then at hand, and the last buffers are allocated; then the table has four pages with a driver installed and mapped and one otherwise, and the largest transfer is what its mode makes of that; memory_failed_ccc is set exactly when it fails and no fresh installation completed a set-up of its own, and memory_used_ccc cleared exactly when it is not; these are the ends the session model knows; after full reads in direct mode the controller reaches exactly the pages of the present buffer |
| MemorySetup.TransferMemory.SetUpForDestination | clone_gui2.c:2470-2497 | with the mode flags cleared it succeeds exactly when a plain buffer and the last buffers can be had, clears memory_failed_ccc then, and keeps the addresses, which are the present buffer's if and only if both are the driver's memory; the sizes leave room in an IDE table and none in an AHCI table |
| MemorySetup.PlainSizes | hddsuperclone.c:1606-1616 | the largest transfer computed without tables has its entries in an IDE table of the same pages and more than an AHCI table holds |
| MemorySetup.FailsUnnoticed | hddsuperclone.c:1365-1369 | a set-up that fails with memory_failed_ccc clear |
| Text.JoinChunks | clone_gui2.c:1325-1331 | the pieces fgets reads are the file, cut |
| Text.ChunksExactly | clone_gui2.c:1325-1331 | no piece is empty or longer than 2047 characters, a newline only ends one, and one without a newline fills the buffer or is the last |
| Text.MarkerPrinted | clone_gui2.c:1262-1264 | a printed marker is four digits between two signs of two bars and two underscores |
| Text.MarkerScans | clone_gui2.c:1262-1264 | a printed marker scans back to its number |
| MarkerPattern.ScanMarkerExactly | clone_gui2.c:1333-1335 | the scan converts n exactly on the lines that start with a bar and have two underscores, a bar and the number n, any white space between them and anything after the last digit |
| MarkerPattern.MarkerAccepted | clone_gui2.c:880-881 | every line so spelled, with a sign or without, scans to the number written |
| MarkerPattern.DigitsValueAtEnd | clone_gui2.c:1335 | a digit more at the end makes the number ten times as large, plus itself |
| MarkerPattern.NarrowExactly | clone_gui2.c:1332-1335 | the number arrives unchanged when an int holds it, modulo 2^32 when 64 bits hold it, and as -1 or 0 beyond them |
| Text.ScanMarkerNewline | clone_gui2.c:1333-1335 | the scan does not see the newline at the end of a line |
| Text.ChunksSplit | clone_gui2.c:1325-1331 | cutting at a newline and then into pieces is cutting into pieces |
| Text.PiecesPlain | clone_gui2.c:1328-1361 | a file without a NUL is seen by the string functions as fgets delivers it |
| Rendering.WrittenIsTail | clone_gui2.c:1256-1271 | the file is the title line and then, entry by entry, a marker line and a text, however the markers are spelled |
| Rendering.WrittenChunks | clone_gui2.c:1325-1331 | the pieces of the file are the title's, each marker line, and each text's |
| FileParser.FoldAppend | clone_gui2.c:1328-1373 | parsing two stretches of lines in turn is parsing them together |
| FileParser.FoldCount | clone_gui2.c:1344 | found_count counts the lines that scan as markers |
| FileParser.MarkerCountIsSize | clone_gui2.c:1344-1358 | that count is the size of the set of lines that scan |
| FileParser.FoldFound | clone_gui2.c:1356 | the entry found last is the one the last marker names, valid or not |
| FileParser.StepExactly | clone_gui2.c:1332-1371 | one piece: a marker strips one newline from the open entry and empties the one it names, if there is one; any other goes to the end of the open entry as far as 2047 characters; no other entry changes |
| FileParser.FoldText | clone_gui2.c:1360-1368 | the pieces of a text accumulate to the text, cut at the entry's capacity |
| FileParser.FoldTail | clone_gui2.c:1328-1373 | from any marker on, the parser stores each text as imported, the last one with its newline kept |
| Catalogue.ImportOfExport | clone_gui2.c:1314-1395 | importing a catalogue, its markers spelled in any way that scans, is accepted and exact if and only if nothing but its markers scans as a marker and no full-length text but the last ends in a newline |
| Catalogue.AcceptedExactly | clone_gui2.c:1374-1377 | a file is accepted if and only if after its first piece exactly LANGCOUNT pieces scan as markers and the last of them has the number LANGCOUNT - 1 |
| Catalogue.SpellingDoesNotMatter | clone_gui2.c:1314-1395 | two catalogues that differ only in how their markers are spelled import to the same, accepted or not, for all texts |
| Catalogue.RespacedImport | clone_gui2.c:1333-1335 | with marker lines respaced, signed, written with other digits or followed by anything, a catalogue imports as the export does, and every text of the promised kind comes back |
| Catalogue.FullEntryLosesNewline | clone_gui2.c:1344-1368 | the exported file with a first text of 2047 characters ending in a newline is accepted, and every text comes back but that newline |
| Catalogue.LinesAreChunks | clone_gui2.c:1325-1331 | for texts within the promised length, unmarked lines mean unmarked pieces |
| Catalogue.RoundTrip | clone_gui2.c:1251-1395 | title of one line that fits the line buffer, texts of at most 2046 characters, no line starting like a marker: the import is accepted and equal, whatever the entries were before and however the markers are spelled |
| Catalogue.FileExport | clone_gui2.c:1251-1273 | the file is the rendering |
| Catalogue.Catalogue.CopyNewLanguage | clone_gui2.c:448-457 | the current language becomes the new one |
| Catalogue.Catalogue.ReadLine | clone_gui2.c:1332-1371 | one turn of the reading loop is one step of the parser function, for any piece |
| Catalogue.Catalogue.FileImport | clone_gui2.c:1314-1395 | for every file: accepts it exactly when LANGCOUNT pieces after the first scan as markers and the last has the number LANGCOUNT - 1, and changes the current language then and only then, to the entries the parser function yields; each piece counts up to its first NUL |
| Catalogue.Catalogue.ExportThenImport | clone_gui2.c:1251-1395 | the round trip on the routines themselves |
| MemoryParser.UnlinesLines | clone_gui2.c:866-926 | the lines of a string, a newline after each, are the string and one newline |
| MemoryParser.StepLineExactly | clone_gui2.c:876-922 | one line: a marker with an entry's number strips one newline from the open entry and empties its own; one with any other number changes none; any other line goes, with a newline, to the end of the open entry, cut to 2047 characters unless the entry was longer |
| MemoryParser.FoldTailLines | clone_gui2.c:864-926 | from any marker on, every text is stored with one newline too many, which the next marker strips |
| MemoryParser.ParseMemoryOfExport | clone_gui2.c:864-934 | the parser in memory accepts every rendering of the promised kind and yields its texts |
| MemoryParser.ParsersAgree | clone_gui2.c:864-934 | both parsers yield the same entries, but the last has exactly one newline more in memory |
| MemoryParser.FailsExactly | clone_gui2.c:884-936 | a string is parsed without failure if and only if LANGCOUNT of its lines scan as markers, each with an entry's number and the last with the last entry's, and no line is longer than the room its entry had |
| MemoryParser.CutLine | clone_gui2.c:866-874 | cuts the first line out and writes one NUL, over its newline |
| MemoryParser.OneTurn | clone_gui2.c:866-926 | one turn, on any line, leaves the memory as it was and does one step of the parser function |
| MemoryParser.ParseLines | clone_gui2.c:864-926 | for every string the loop is the fold over its lines, and leaves the memory as it was |
| MemoryParser.ParseInPlace | clone_gui2.c:864-936 | for every string: fails unless its lines are complete in that sense, yields what the parser function yields, and every NUL written has become its newline again |
| Batching.EscapeRoundTrip | clone_gui2.c:784-801 | a reader of the two codes %20 and %0a, or of every percent code, gets the text back if and only if no three consecutive characters of it are a code to that reader |
| Batching.EscapeInjective | clone_gui2.c:784-801 | different texts without %20 and %0a are sent as different text |
| Batching.CodesAreAmbiguous | clone_gui2.c:784-801 | every text is sent exactly as the text that undoing the two codes makes of what is sent, which is a different one if and only if it contains one of them |
| Batching.EscapeBatch | clone_gui2.c:783-801 | the character loop computes the escaped form |
| Batching.BatchesJoin | clone_gui2.c:770-816 | end to end the batches are the rendering of the entries, in order |
| Batching.EntryInOneBatch | clone_gui2.c:772-783 | every entry lies whole in one batch, which is at most 3000 characters and one marked entry long, and is cut at the first entry that takes it past 3000 or at the end |
| Batching.SendBatches | clone_gui2.c:770-816 | end to end what is sent is the escaped rendering of all entries in order, nothing twice and nothing left unsent, cut into such batches |
| Sessions.Deliver | clone_gui2.c:3109-3115 | for every queue of nested events: the session stays settled; without a new version nothing chosen has changed, no change of mode is left without a memory set-up and no button left on by a connection that ended; during a run only the stop signal and the driver mode can change, and zero stays zero; with the window off only the timer acts; no connection goes stale in a quiet run; passive events choose, connect and disconnect nothing |
| Sessions.Fire | clone_gui2.c:1401-3307 | the same for one event with everything nested in it |
| Sessions.FireMenu | clone_gui2.c:1401-2723 | the same for every callback that chooses |
| Sessions.FireButton | clone_gui2.c:2729-3344 | the same for connect, disconnect, start and analyze |
| Sessions.ModeButtons | clone_gui2.c:3207-3242 | setting the mode buttons settles the session and disturbs no run, although in driver-only mode it delivers events halfway, and notes whether it has made the button of mode 4 sensitive without a connection |
| Sessions.SetConnected | clone_gui2.c:2959-2992 | only an attempt that passed its gate makes a connection, with everything chosen and of the checked version unless already stale, and settled after whatever its two display updates deliver |
| Sessions.SetDisconnected | clone_gui2.c:2996-3017 | leaves a settled session without a run |
| Sessions.DisconnectDevices | clone_gui2.c:2941-2953 | the same, with releasing the devices and the final display update |
| Sessions.OpenProject | clone_gui2.c:1401-1432 | settled whatever fill flag the log sets (hddsuperclone.c:2495-2497), also when reading it fails late, and never stale: no display update lies between its guard and what it clears |
| Sessions.ImportLog | clone_gui2.c:1510-1543 | the same for the ddrescue import |
| Sessions.NewProject | clone_gui2.c:1438-1469 | settled for any events at its three display updates, and not stale when the first two deliver only passive ones |
| Sessions.ChangeMode | hddsuperclone.c:15133-15404 | a mode switch outside a connection keeps everything settled and nothing stale, and sets memory up for whatever mode its display update leaves in force |
| Sessions.PickSource | clone_gui2.c:2088-2422 | settled for any nested events, with used memory set up anew and the pass-through mode set once more on both paths, and not stale when what comes between guard and choice is passive |
| Sessions.TakeImage | clone_gui2.c:2134-2178 | on the image path too: identifying, choosing or clearing, and two display updates leave no run going and the window as it was; nothing goes stale outside a connection when identifying delivers only passive events |
| Sessions.Identify | hddsuperclone.c:13432-13574 | in auto mode the pass-through mode is set again, and a second time for an ATA drive, memory with it and the auto flag after each, whatever mode is then in force, with a wait for the drive in between; with the window off nothing is connected or disconnected |
| Sessions.PickDestination | clone_gui2.c:2454-2586 | settled, and never stale, with used memory set up for a plain buffer whatever the mode |
| Sessions.PickImage | clone_gui2.c:2603-2688 | settled, and never stale |
| Sessions.PickNull | clone_gui2.c:2694-2723 | settled, and never stale, although it chooses after its display update |
| Sessions.ConnectSource | clone_gui2.c:2803-2859 | a connection with a source is made only with a clean last check, clean repairs and two different devices; it is of the version that was checked when what comes while the drives open is passive |
| Sessions.ConnectWithoutSource | clone_gui2.c:2745-2798 | a fill or driver-only connection is made only with a clean last check and clean repairs, and is never stale |
| Sessions.BeginClone | clone_gui2.c:3248-3287 | the run is settled from its first moment, and the engine put on record for a driver-only session with the driver installed is the driver's, whatever mode it started from |
| Sessions.CloneRun | clone_gui2.c:3248-3307 | settled after any run with any nested events and any result |
| Sessions.AnalyzeRun | clone_gui2.c:3327-3344 | the same for an analysis |
| Sessions.TimerTick | clone_gui2.c:2923-2935 | the drive is polled only while connected, not cloning, not filling and outside any run |
| SessionLaws.ConnectDecides | clone_gui2.c:2729-2894 | with nothing pending, pressing connect connects if and only if the session and the answers are admitted |
| SessionLaws.RunDecides | clone_gui2.c:3248-3307 | with nothing pending, a clone run keeps every choice, begins one engine, the driver's exactly in a driver mode or in a driver-only session with the driver, ends connected if and only if it succeeded or was stopped, and leaves memory used |
| SessionLaws.ExamineAdmits | clone_gui2.c:2747-2755 | the last check and the repair are clean exactly when the first check is, or only equal neighbours were wrong and repair and recheck are clean |
| SessionLaws.OpenDecides | clone_gui2.c:2832-2859 | in whatever session the wait for the drives left, an attempt that passed connects exactly when they open, on the word of its own checks |
| EventLaws.SelectFileInOrder | clone_gui2.c:1401-1432 | opening a project acts with the window on, no run and no connection, once confirmed; it clears the drives, takes the fill flag from the log, and has a project exactly if the log was read |
| EventLaws.ImportInOrder | clone_gui2.c:1510-1543 | a ddrescue import acts only on a new project, with every answer good, and then leaves a project that is not new, without drives |
| EventLaws.NewFileInOrder | clone_gui2.c:1438-1469 | a new project: the drives cleared, two updates, a new project without drives under whatever connection there is by then, and a third update |
| EventLaws.SwitchModeInOrder | hddsuperclone.c:15133-15404 | a mode change: its flags, one update, and a set-up for whatever mode is in force by then, by whose end memory is equipped or flagged as failed |
| EventLaws.SwitchModeDecides | hddsuperclone.c:15155-15404 | with nothing pending memory is equipped for the new mode if and only if the set-up completed, and the failed flag set if and only if it failed in the open or the mode has no tables |
| EventLaws.ImageSourceInOrder | clone_gui2.c:2134-2178 | picking an image as source, update by update |
| EventLaws.DriveListInOrder | clone_gui2.c:2088-2186 | before the drives are listed used memory is renewed, equipped for the mode exactly if that completed |
| EventLaws.DriveInOrder | clone_gui2.c:2186-2422 | picking a drive: the source dropped, the window off, a wait, the identification, the flag if all is well, an update, the window on |
| EventLaws.SetAgainInOrder | hddsuperclone.c:13432-13574 | setting the pass-through mode again: the flags, an update, memory for the mode then in force, and the auto flag |
| EventLaws.ChooseSourceDecides | clone_gui2.c:2088-2422 | with nothing pending: what is chosen afterwards, and memory by the ends of the one, two or three set-ups there were |
| EventLaws.ChooseSourceEquips | clone_gui2.c:2088-2422 | so memory is equipped exactly when the last of them completed, and flagged as failed as that one ended |
| EventLaws.DestinationInOrder | clone_gui2.c:2454-2586 | choosing a destination drive: plain memory if a run has used it, the flag by the answer, and one update, in driver-only mode two |
| EventLaws.ImageInOrder | clone_gui2.c:2603-2688 | an image file as destination is taken the same way, without a word on memory |
| EventLaws.NullInOrder | clone_gui2.c:2694-2723 | the null device: the update comes before the flag |
| EventLaws.InstallExactly | hddsuperclone.c:1227-1371 | installing the driver: there or not, and memory untouched or renewed for the mode, equipped exactly if that completed |
| EventLaws.UninstallExactly | hddsuperclone.c:1376-1414 | removing it never puts it there, and leaves memory untouched, unmapped or renewed |
| EventLaws.StopAndModeExactly | clone_gui2.c:3121-3190 | stop only asks a run to stop, and a driver mode is set, by a sensitive button, before the update |
| EventLaws.TickInOrder | clone_gui2.c:2923-2935 | a tick polls under a connection that is neither filling nor cloning, and otherwise removes its source |
| EventLaws.WithoutSourceInOrder | clone_gui2.c:2745-2798 | connecting without a source: what refuses it, and otherwise the connection, each with its updates |
| EventLaws.WithSourceInOrder | clone_gui2.c:2803-2859 | connecting with one: what refuses it before and after the wait for the drives, and otherwise the connection |
| EventLaws.ConnectLeaves | clone_gui2.c:2729-2894 | with nothing pending: nothing, or a connection with every button and flag that belongs to it, or all of them off |
| EventLaws.ConnectedInOrder | clone_gui2.c:2959-2992 | the connection and the clone button, then the mode buttons with the driver there, in driver-only mode by way of mode 4 and an update, then the watch |
| EventLaws.DisconnectedInOrder | clone_gui2.c:2996-3017 | everything a connection has is switched off, in driver-only mode with the driver by way of mode 4 and an update |
| EventLaws.DisconnectLeaves | clone_gui2.c:2941-2953 | disconnecting with nothing pending leaves all of it off and nothing else changed |
| EventLaws.StartInOrder | clone_gui2.c:3248-3307 | a clone run between its updates: the engine by the driver mode the buttons leave, memory used, and the end by what it returned |
| EventLaws.StartLeaves | clone_gui2.c:3248-3307 | with nothing pending: the whole session a clone run leaves, the timer of a direct mode running even after a failure |
| EventLaws.AnalyzeInOrder | clone_gui2.c:3327-3344 | an analysis between its updates |
| EventLaws.AnalyzeLeaves | clone_gui2.c:3592-3614 | and what it leaves, which is what a clone run leaves |
| EventLaws.StartTimerExactly | clone_gui2.c:2899-2907 | the timer is started in direct mode only, and has one source when it runs |
| SessionLaws.StartedIsReached | hddsuperclone.c:15133-15404 | the sessions used in the runs below are reached from the start by setting a mode, opening a log of that mode and choosing drives |
| SessionLaws.MenuAgreesExactly | clone_gui2.c:5058-5065 | after every run the source menu is sensitive exactly outside fill mode, so it agrees with the fill flag if and only if that is on exactly in fill mode |
| SessionLaws.LogDecidesMenu | hddsuperclone.c:2495-2497 | after opening a log the menu and the flag agree if and only if the flag in the log agrees with the menu, or there is none and they agreed |
| SessionLaws.LogSetsFillAlone | hddsuperclone.c:2495-2497 | from the start, opening a log written in fill mode turns fill on and leaves the source menu sensitive |
| SessionLaws.NewProjectStripsConnection | clone_gui2.c:2026-2057 | a connection made while a new project empties the domain loses its destination |
| SessionLaws.ConnectOutlivesItsProject | clone_gui2.c:2832-2859 | a project cleared while the drives open leaves a connection without a project |
| SessionLaws.ImageSourceStripsConnection | clone_gui2.c:2134-2178 | a connection made before the image is opened loses its source when that fails |
| SessionLaws.NewProjectLosesExactly | clone_gui2.c:2026-2057 | a new project keeps what a connection needs if and only if the session is not connected once the domain is empty, and makes it stale exactly then, whatever quiet events come after |
| SessionLaws.ImageLosesExactly | clone_gui2.c:2134-2178 | picking an image keeps it if and only if, once the image is identified and every mode it sets is set, the session is not connected, the image opens, or no source is needed; staleness the same for any quiet events after |
| SessionLaws.DriveLosesExactly | clone_gui2.c:2186-2422 | picking a drive keeps it if and only if the session is not connected by then, the drive is identified, or no source is needed and the auto flag does not set the pass-through mode; staleness and the rest for any quiet events after |
| SessionLaws.ConnectLosesExactly | clone_gui2.c:2803-2859 | connecting makes a connection without what it needs if and only if something was dropped while the drives opened, and one of an unchecked version if and only if anything was chosen meanwhile; staleness the same for any quiet events after |
| MemoryLaws.MemoryExactly | hddsuperclone.c:1583-1752 | after every run memory is set up for the mode in force if and only if the last set-up completed and was not one for destinations in a mode that needs more than a plain buffer; if it is not, the failed flag tells so exactly when that set-up ended as failed, or was already set when the driver's memory was unmapped |
| MemoryLaws.DestinationExactly | clone_gui2.c:2470-2497 | listing destinations leaves used memory set up for the mode if and only if the set-up works and the mode needs a plain buffer, and the failed flag set if and only if it does not work; unused memory it leaves alone |
| MemoryLaws.DestinationUnequips | clone_gui2.c:2470-2497 | in either direct mode: clone, disconnect, choose a destination, connect, and the session is connected with plain memory and no failure on record |
| ButtonLaws.Mode4AfterAll | clone_gui2.c:3207-3242 | after every run of the program the button of mode 4 is sensitive without a connection if and only if, when it was last set, what was delivered just before had ended the connection, and there has been none since |
| ButtonLaws.LateExactly | clone_gui2.c:3207-3242 | wherever the buttons are set, that of mode 4 ends up as asked, and without a connection if and only if, in driver-only mode with the driver there, what was delivered at mode 4 leaves none |
| ButtonLaws.ConnectMode4Exactly | clone_gui2.c:2959-2992 | after connecting in driver-only mode the button of mode 4 is sensitive, and without a connection if and only if what was delivered at mode 4 has disconnected |
| ButtonLaws.StartMode4Exactly | clone_gui2.c:3286-3307 | after a clone run the button is sensitive if and only if the driver is there and the run succeeded or was stopped, and without a connection if and only if, besides, in driver-only mode what was delivered at mode 4 after the run has disconnected |
| ButtonLaws.AnalyzeMode4Exactly | clone_gui2.c:3592-3614 | the same after an analysis |
| ButtonLaws.DisconnectAtEndOfRun | clone_gui2.c:3286-3307 | from any driver-only session with the driver, a run with a disconnect pending at that moment leaves the button sensitive without a connection |
| ButtonLaws.Mode4OutlivesConnection | clone_gui2.c:3207-3214 | a run of the program, from the start, in which a disconnect pending while connecting does the same |
| Gtk3Timer.OneSourceExactly | clone_gui3.c:2882-2918 | over every sequence of starts, stops and ticks there is one source exactly as the flag says, if and only if every stop of a running timer is followed by a tick before the next start in direct mode |
| Gtk3Timer.StepEffects | clone_gui3.c:2882-2918 | only a start in direct mode with the flag clear adds a source, and only a tick with nothing to poll, or with the flag clear, takes one away and clears the flag |
| Gtk3Timer.LeftOver | clone_gui3.c:2893-2918 | a stopped timer still has its source exactly when no tick has come since the stop |
| Gtk3Timer.RestartsPileUp | clone_gui3.c:2882-2899 | each restart before a tick leaves one more source |
| Gtk3Timer.StoppedSourcesDrain | clone_gui3.c:2903-2918 | once stopped, every source left removes itself without a poll |
| MainWindow.MainWindow.Deliver | clone_gui2.c:3109-3115 | simulates the state machine for every queue of nested events, and after it connect is sensitive exactly without a connection, disconnect, start and analyze exactly with one outside a run, the clone-mode button only then and not in driver-only mode, the top menu exactly outside a run, the mode and drives menus exactly without a connection, the source menu exactly outside fill mode, the buttons of driver modes 1, 2, 3 and 5 only with a connection and not in driver-only mode, no driver-mode button in a run outside the driver modes, and one timer source is left exactly when the flag is set |
| MainWindow.MainWindow.Fire | clone_gui2.c:1401-3344 | the same for one event: a callback runs exactly if its widgets are sensitive, and leaves all of them as stated |
| MainWindow.MainWindow.Sensitive | clone_gui2.c:2959-3017 | the widgets alone decide which callback can run as the state machine says |
| MainWindow.MainWindow.ExamineLog | clone_gui2.c:2747-2755 | check, repair and recheck yield a clean log exactly when the attempt passes |
| MainWindow.MainWindow.TimerAction | clone_gui2.c:2923-2935 | when it returns false no source is left |
| RebuildAssist.ClearedThenEnabled | common.c:1347-1387 | a successful disabling run and enabling run back to back are a zero page the drive took, a read, and an enable page it took, and leave it on |
| RebuildAssist.BitOfSigned | common.c:1499-1500 | the shift finds the same bit in a signed mask char and in its byte |
| RebuildAssist.HeadByteDisablesHead | common.c:1489-1515 | the one byte written makes a page whose disabled field has exactly that head's bit |
| RebuildAssist.HeadRoundTrip | common.c:1411-1429 | when the drive shows the field as written, the listing arithmetic finds that head disabled and no other, and none when it lies past the element length |
| RebuildAssist.RebuildAssist.DisableRebuildAssist | common.c:1435-1459 | sends a zero page, a reset unless it was taken, a zero page again, and a read if that was taken, each reply being the drive's next; its result is the second page's, and use_fpdma is false exactly when that was taken or it was false |
| RebuildAssist.RebuildAssist.EnableRebuildAssist | common.c:1462-1486 | sends one enable page, and a read if it was taken, each reply being the drive's next; use_fpdma is true and the drive left on when it was taken |
| RebuildAssist.RebuildAssist.DisableHead | common.c:1489-1547 | a page is sent exactly when the head's mask bit is set, it disables exactly that head, the result is the drive's, and the bounds check never stops it |
| RebuildAssist.RebuildAssist.ReadLog | io.c:10841-10857 | the page is read and nothing sent; the host's copy is its flags, length and two bit fields, zero beyond the length, when the fields fit the host's |
| RebuildAssist.RebuildAssist.ListHeads | common.c:1411-1429 | names exactly the heads of the drive's mask, in order, each with its state |
| RebuildAssist.RebuildAssist.Report | common.c:1390-1431 | with the feature on: a page for the head to disable if that head is masked, a read, and the listing of the page read |
| RebuildAssist.RebuildAssist.SetRebuildAssistEnabled | common.c:1347-1432 | returns 0 exactly when the zero page and then the enable page were taken, and then sends the page for the head to disable if there is a masked one, reads, and lists exactly the masked heads with their states as last read; the flags stay equal if they were, are unchanged after an earlier failure and false after a refused enable page; the host never believes less than the drive acknowledged |
| RebuildAssist.RebuildAssist.SetRebuildAssistDisabled | hddsuperclone.c:16760-16787 | the flags are equal afterwards if and only if there was nothing to turn off or the drive took the zero page |
| RebuildAssist.RefusedDisable | hddsuperclone.c:16760-16787 | a drive that takes everything and then refuses to turn the feature off: it stays on, and the host uses it without calling it enabled |
| Analyze.ScanDeadZones | clone_gui2.c:3497-3518 | the longest contiguous block of attempted but never good zones, the block touching the last zone, and the longest time of any such zone |
| Analyze.ZoneTotals | clone_gui2.c:3382-3416 | each zone's average is its time divided by its attempts, or 0; through that and a second integer division the overall average never exceeds the overall high, and is never below the overall low when every zone was attempted |
| Messages.AfterAllIsPrefix | common.c:353-360 | any number of truncating appends keep the first 1023 characters of everything |
| Messages.MessageBuffer.Append | common.c:353-360 | the in-place append stays terminated inside the buffer and keeps as much of the message as there is room for |
| Messages.MessageBuffer.Collect | common.c:353-370 | a cleared buffer shows the start of the collected messages, in order |

## Left out

* The clone, driver and analysis engines and the log engine: their results are answers in an event.
* Opening, identifying and releasing drives: answers in an event. The display updates of those waits
  are modelled only in direct mode, the only mode whose transfers wait in a loop that updates the
  display.
* The relay, SMART, reset, settings and domain callbacks, log repair and log reset: they set none of
  the modelled flags and are the one callback `Other`, which delivers what is pending at its update.
  What they or a run do to the log itself is not a new version of the choices.
* Dialogs: they are modal, so no widget callback runs inside one. The timer's source still fires there,
  and those ticks are not modelled; ticks at display updates are. Labels, colours, the aggressive-driver
  check box and the warning about a null destination in driver mode are not modelled either.
* The flags that only tell one pass-through, USB or fill mode from another: whether a mode callback
  finds its mode already set is an answer.
* In `Sessions` the end of a memory set-up is an answer; `MemorySetup` has what decides it. Removing the
  driver is not modelled there, and what it does to memory is an answer here.
* The very first identify command of an auto-mode session that a nested switch has put in a direct mode
  as well: its waits, with the auto flag lowered for the while, deliver nothing in the model.
* Allocation, `mmap` and `/proc` are attempt streams; the padding buffer kept between attempts is not
  modelled. A page-map read that comes up short is treated as in range, as the code does. Two allocations
  count as different places, though the second can be given the first one's pages.
* Catalogue.Catalogue.FileImport: does not model what a marker number outside the catalogue does to the
  memory around the entries, which C leaves undefined; the entries themselves it leaves alone.
* Catalogue.Catalogue.ReadLine: the same for one piece.
* Catalogue.ImportOfExport: the same for a text with such a marker in it.
* MemoryParser.ParseInPlace: does not model that an entry with more than 2047 characters runs into the one
  after it; each entry is a string of its own. Texts of the promised kind never make one.
* MemoryParser.ParseLines: the same for the loop alone.
* MemoryParser.OneTurn: the same for one line.
* RebuildAssist.RebuildAssist.ReadLog: does not model what a page with an element length above 128 does to
  the memory behind the host's fields, which C leaves undefined.
* RebuildAssist.RebuildAssist.DisableHead: does not model a head number past the host's fields.
* RebuildAssist.RebuildAssist.ListHeads: does not model an element length above 128 taken from an earlier page.
* RebuildAssist.RebuildAssist.SetRebuildAssistEnabled: does not model either of these.
* The translator's answers: the web request and the scraping of its reply.
* Floating-point percentages, printed tables, hex dumps and debug output.
* Overflow of the 32-bit counters in the analysis totals.
