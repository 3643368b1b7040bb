# Savecraft client: verified model

A model, in Dafny 4.11, of the parts of the Savecraft client where a mistake is
hard to see: the protocol that pushes parsed saves, the watcher that waits for a
save directory to go quiet, the decoders of two binary save formats, and the
algorithms that cut, group and order what is sent. `dafny verify dfyconfig.toml`
checks all of it.

## What is modelled

**GVAS saves** (`GvasText`, `GvasFormat`, `GvasProofs`, `GvasSave`, `GvasValues`,
`GvasLimits`, `GvasReader`, `GvasParser`, `GvasPanic`, `GvasNames`, `GvasMeaning`,
`GvasPlaces`, `GvasFile`). The format is a grammar of
stored values: string encodings, sizes, flag bits, removed keys, the reserved byte and the custom version
format are all there, although the parser forgets them. A printer and a reader over
that grammar undo each other in both directions, so the parser accepts exactly the
printed language. `Erase...` functions say what the parsed save keeps, and the class
`Reader` advances through the bytes with the branches of the Go parser and is proved
to return exactly the erased value and to stop exactly where the grammar does. Every
recursive reader is a total function whose measure is the bytes left: what is read
successfully strictly shrinks them. The depth limit applies to type trees only, as in
the code; the comment beside it also speaks of struct properties. Floats are kept as
their bits; a GUID's byte fields are ten fixed-width words. One string length makes the
parser panic; a caller can rule that out by looking for its four bytes in the file.
Reader and printer share their tables; what each name, struct, tag and header field
means is stated apart from them, from the bytes, in `GvasMeaning`, `GvasPlaces` and
`GvasFile`.

**Diablo II saves** (`Bits`, `BitReader`, `Huffman`, `HuffmanTable`, `MagicTable`,
`MagicList`, `MagicMeaning`, `Attributes`, `ItemFormat`, `ItemParser`, `ItemList`,
`ItemWriter`, `ItemStream`). The bit reader
keeps a 64-bit buffer over a byte stream and refines a cursor over the LSB-first bit
sequence; its invariant `Valid` also says that the bytes drawn are the ceiling of
the furthest bit ever consumed, over eight. The comment in the code promises reads of
up to 64 bits. That holds when the bytes to draw fit the buffer, which for up to 57
bits they always do (`Room`); otherwise bits can be lost (`OverfullByte`).
The Huffman tree is a pointer structure; the comment in the code mentions a 38th
symbol, NUL, that the table does not have. Items are read with their speculative
12-bit read, alignment and the loop whose bound grows while it runs; a writer that
spells every field on its own (`ItemWriter`) shows that each is read from its place. Name tables and
the list of stackable items are parameters (`ItemTables`); the property table and the
Huffman table are the real ones.

**Save sync** (`SaveSync`, `SaveHistory`, `DirectoryUnits`, `Daemon`). A state machine at the
granularity of the daemon's lock: every parse is a thread that interleaves with
others, with plugin changes and with evictions. The fields `born` and `snapshots`
are history the daemon does not store. Hashes are injective (`Sha256(name, payload)`).
A send that returns nil is taken to be delivered and one that returns an error not to
be; `internal/wsconn/client.go:216-219` also returns nil for a message it drops while
disconnected, and for that case nothing is claimed. The receiver keeps, per game and
save name, what was pushed and only the names listed in the push. Agreement with the
receiver needs two things that the code does not enforce: no two parses of one file
overlap, and each save identity belongs to one file. `OverlapDisagrees` and
`SharedIdentityDisagrees` say exactly when things go wrong without them, and
`OverlapHappens` and `SharedIdentityHappens` are runs from the start in which they do.
A section that cannot be encoded for hashing is listed but neither pushed nor remembered; `ExactUnlessStuck`
says exactly when the recorded hashes still are the receiver's.

**Watcher** (`Quiescence`, `Watcher`). Per-file debounce timers feed one timer per
directory-unit root. A timer that expires becomes a goroutine that may still be
waiting for the lock when the next change arrives. A window opens with a schedule that
finds nothing due for the root and closes with the commit; each window yields one
event. Roots are not removed mid-run.

**Partitions** (`Partition`, `CardLookup`). Splitting a game log or a stash tab into
parts of bounded size, with the size an arbitrary function that does not grow when
elements are taken away, the index of the parts, and the card dictionary of each.

**Satisfactory** (`Graphs`, `Sorting`, `UnionFind`, `ProductionLines`, `BaseIndex`).
Union-find with path compression, the contraction of the belt and pipe graph into
production lines, and the grouping of machines into spatial bases. Coordinates are
reals.

**Plugins** (`Version`, `PluginManager`, `PluginOutput`). Version order, updates and
anti-rollback over a cache whose writes happen completely or not at all, and the
bounded line splitter over a pipe. While a plugin is cached, its recorded hash only changes to
an artifact whose manifest version is not older than the recorded one. The recorded
version itself can go down when the same artifact is re-tagged, and a plugin evicted for
failing verification has no recorded version left; in both cases an older artifact can
follow (`RetagForgetsAnchor`, `EvictionForgetsAnchor`). `OneCallKeepsVersion` says exactly
at which calls that happens, and `RunKeepsVersion` that it happens at no others.
The pipe reports the end of the stream only when nothing is left, as `io.Pipe` does: a
reader that returned its last bytes together with the end could make the scanner drop
lines that follow an oversized one.

## Model

| member | source | states |
|---|---|---|
| `GvasText.PanicsExactly` | plugins/gvas/reader.go:88-118 | reading an FString panics instead of failing for exactly one length prefix, the most negative 32-bit integer |
| `GvasPanic.ParseNeverPanicsWithout` | plugins/gvas/parse.go:28-63 | a file in which that prefix occurs nowhere is parsed or refused with an error |
| `GvasPanic.PanickingEngineBranch` | plugins/gvas/parse.go:108-111 | with any header, that prefix as the length of the engine branch makes the whole parse panic |
| `GvasPanic.PanicHappens` | plugins/gvas/parse.go:28-63 | a header of zeros is such a file |
| `GvasText.ReadPrintedFString` | plugins/gvas/reader.go:88-130 | every FString within the size limit is read back from its length-prefixed bytes, leaving what follows |
| `GvasText.PrintReadFString` | plugins/gvas/reader.go:88-130 | every FString that is read is within the limit and was stored as those very bytes |
| `GvasText.DecodeEncodedUtf16` | plugins/gvas/reader.go:121-129 | decoding UTF-16 undoes encoding for every sequence of Unicode scalars, surrogate pairs included |
| `GvasText.TerminatedText` | plugins/gvas/reader.go:107-129 | a terminated narrow string gives its bytes back, a terminated wide one its text in UTF-8 |
| `GvasText.ReadPrintedWord` | plugins/gvas/reader.go:31-77 | signed and unsigned little-endian words of any width are read back from their bytes |
| `GvasMeaning.WordBytes` | plugins/gvas/reader.go:31-77 | a word is laid out least significant byte first, and in two's complement below zero |
| `GvasMeaning.StringBytes` | plugins/gvas/reader.go:88-130 | an FString is a signed length and as many bytes, or a negated length and as many UTF-16 units |
| `GvasProofs.ReadPrintedTree` | plugins/gvas/parse.go:146-169 | every type tree within the depth and child limits is read back whole |
| `GvasProofs.PrintReadTree` | plugins/gvas/parse.go:146-169 | every type tree that is read keeps both limits and was laid out as printed |
| `GvasProofs.ReadPrintedTagged` | plugins/gvas/parse.go:229-350 | every value that fits its type tree, size and flags is read back, for all property types |
| `GvasProofs.PrintReadTagged` | plugins/gvas/parse.go:229-350 | whatever is read as a property value fits the type tree and is what printing gives |
| `GvasProofs.ReadPrintedStruct` | plugins/gvas/parse.go:414-542 | built-in structs, tag containers and nested property lists are read back |
| `GvasProofs.ReadPrintedElement` | plugins/gvas/parse.go:608-713 | values outside a property tag are read back |
| `GvasProofs.ReadPrintedElements` | plugins/gvas/parse.go:566-604 | element sequences, of one type or of two in turn, are read back |
| `GvasProofs.ReadPrintedProps` | plugins/gvas/parse.go:172-226 | parsing undoes printing for every property list within the limits, whatever follows it |
| `GvasProofs.PrintReadProps` | plugins/gvas/parse.go:172-226 | nothing but a printed property list within the limits is ever accepted |
| `GvasProofs.PropsExtend` | plugins/gvas/parse.go:172-226 | the serialization of a property list does not depend on the bytes after it |
| `GvasFormat.ReadProps` | plugins/gvas/parse.go:172-226 | terminates on every input, and a property list that is read strictly shrinks the remaining bytes |
| `GvasFormat.ReadElement` | plugins/gvas/parse.go:608-713 | every element or skipped key that is read strictly shrinks the remaining bytes |
| `GvasFormat.ReadTree` | plugins/gvas/parse.go:146-169 | every type tree that is read strictly shrinks the remaining bytes |
| `GvasSave.ReadPrintedSave` | plugins/gvas/parse.go:28-139 | every save, header and reserved byte included, is read back, and the bytes after it are the extra data |
| `GvasSave.PrintReadSave` | plugins/gvas/parse.go:28-139 | a file that parses is the serialization of a save within the limits followed by its extra data |
| `GvasValues.ParseUndoesSerialize` | plugins/gvas/parse.go:172-226 | in terms of the parsed save: parsing a serialized property list returns it, consumes exactly its bytes and leaves the rest |
| `GvasLimits.SerializableExactly` | plugins/gvas/parse.go:172-226 | a property list is serializable exactly when some file parses to it and its strings are below the size limit by a terminator |
| `GvasValues.CanonPropsKeep` | plugins/gvas/types.go:67-73 | nothing the parsed property list holds is lost by laying it out |
| `GvasReader.Reader.ReadString` | plugins/gvas/reader.go:88-130 | returns the string the FString stands for and stops where it ends, or fails as the format says |
| `GvasReader.Reader.ReadTypeTree` | plugins/gvas/parse.go:146-169 | the recursive method agrees with the grammar: value, position, and failure |
| `GvasReader.Reader.ReadProperties` | plugins/gvas/parse.go:172-226 | the property loop agrees with the grammar and terminates on every input |
| `GvasReader.Reader.ReadOneProperty` | plugins/gvas/parse.go:182-223 | tag fields, optional index and GUID, and value agree with the grammar |
| `GvasPlaces.TypeTrees` | plugins/gvas/parse.go:146-169 | a type tree is name, child count and children in order, refused below depth 64 and beyond a million children |
| `GvasPlaces.PropertyLists` | plugins/gvas/parse.go:172-226 | a list ends at None and is otherwise name, type tree, size, flags, array index if bit 0, GUID if bit 1, value, and more of the list, from the bytes |
| `GvasReader.Reader.ReadPropertyValue` | plugins/gvas/parse.go:229-350 | the type dispatch agrees with the grammar |
| `GvasMeaning.Numbers` | plugins/gvas/parse.go:231-271 | `IntProperty` is a signed 32-bit word, `UInt32Property` an unsigned one, `Int64Property` and `UInt64Property` 64-bit ones, `FloatProperty` and `DoubleProperty` 32 and 64 bits, in a tag and on their own, from the bytes |
| `GvasMeaning.Strings` | plugins/gvas/parse.go:277-303 | name, string, object and enumeration properties are one FString each, kept under their own kind |
| `GvasMeaning.Bytes` | plugins/gvas/parse.go:305-318 | `ByteProperty` is one byte, or an enumerator's name if its type names an enumeration |
| `GvasMeaning.SoftObjects` | plugins/gvas/parse.go:353-367 | `SoftObjectProperty` is asset path, package and asset name, in that order |
| `GvasMeaning.Booleans` | plugins/gvas/parse.go:273-275 | a boolean in a tag is flag 0x04 and takes no bytes; on its own it is a byte that is zero or not |
| `GvasMeaning.RawValues` | plugins/gvas/parse.go:323-350 | text and values of any name the parser does not know are kept as the bytes the tag counts |
| `GvasMeaning.RefusedAlone` | plugins/gvas/parse.go:710-712 | text, containers and unknown names are refused as elements, keys and values, whatever the bytes |
| `GvasPlaces.Arrays` | plugins/gvas/parse.go:544-604 | `ArrayProperty` is a count and as many elements of its first child's type; without a child, or beyond a million, it is refused |
| `GvasPlaces.Maps` | plugins/gvas/parse.go:715-755 | `MapProperty` is a count and the removed keys, then a count and each key followed by its value, which become the entries; with fewer than two types, or beyond a million entries, it is refused |
| `GvasPlaces.Sets` | plugins/gvas/parse.go:757-791 | `SetProperty` is a count and the removed elements, then what an array is |
| `GvasReader.Reader.ReadStructValue` | plugins/gvas/parse.go:414-542 | the struct dispatch agrees with the grammar |
| `GvasMeaning.SpatialStructs` | plugins/gvas/parse.go:430-496 | vectors and rotators are three doubles in order, quaternions four and linear colors four floats |
| `GvasMeaning.PlaneStructs` | plugins/gvas/parse.go:423-532 | 2D vectors are two doubles, integer points two signed words, dates one unsigned 64-bit word |
| `GvasMeaning.Guids` | plugins/gvas/reader.go:133-153 | a GUID is a word, two runs of four bytes, and a word |
| `GvasMeaning.TagContainers` | plugins/gvas/parse.go:498-510 | a tag container is a count and as many strings |
| `GvasPlaces.GenericStructs` | plugins/gvas/parse.go:384-412 | any other struct is a property list kept under "Package.Name", or the bare name without a package; with flag 0x10 every struct is raw bytes under that path |
| `GvasReader.Reader.ReadValueByType` | plugins/gvas/parse.go:608-713 | the untagged dispatch agrees with the grammar and refuses nested containers |
| `GvasReader.Reader.ReadArrayProperty` | plugins/gvas/parse.go:544-604 | arrays agree with the grammar, with the element limit |
| `GvasReader.Reader.ReadMapProperty` | plugins/gvas/parse.go:715-755 | maps skip their removed keys and pair keys with values as the grammar does |
| `GvasReader.Reader.ReadSetProperty` | plugins/gvas/parse.go:757-791 | sets skip their removed keys and agree with the grammar |
| `GvasParser.ReadCustomVersions` | plugins/gvas/parse.go:120-136 | the custom version loop agrees with the header grammar |
| `GvasParser.Parse` | plugins/gvas/parse.go:28-63 | the whole parse is what the save grammar says of the file, extra data and failures included |
| `GvasFile.FileRead` | plugins/gvas/parse.go:28-139 | a file is the magic, save game version, UE4 and (from version 3 on, but not 34) UE5 package version, engine major, minor, patch, build and branch, custom versions, save game type, from engine 5.4 on a reserved byte, and the root properties: every parsed field comes from its own place |
| `GvasFile.BadMagic` | plugins/gvas/parse.go:67-73 | any other first four bytes are refused |
| `Bits.OrAppends` | plugins/d2r/d2s/bitreader.go:24-39 | or-ing a shifted value above a buffer appends its bits |
| `BitReaders.BitReader.ReadBits` | plugins/d2r/d2s/bitreader.go:24-39 | returns the next n bits of everything still to come, fails exactly when fewer remain, and keeps the bytes drawn at the ceiling of the furthest bit consumed; for every width whose bytes fit the buffer, up to 57 bits always |
| `BitReaders.OverfullByte` | plugins/d2r/d2s/bitreader.go:22-31 | where they do not fit, a byte is appended correctly exactly when the bits pushed past the top are zero |
| `BitReaders.BitReader.UnreadBits` | plugins/d2r/d2s/bitreader.go:57-61 | puts bits back in front of everything to come, undoing a read |
| `BitReaders.BitReader.Align` | plugins/d2r/d2s/bitreader.go:64-73 | skips to the item's next byte boundary if those bits are buffered |
| `BitReaders.Taken` | plugins/d2r/d2s/bitreader.go:33-38 | masking and shifting the buffer takes its first bits and keeps it within its width |
| `BitReaders.PushedBack` | plugins/d2r/d2s/bitreader.go:57-61 | shifting and or-ing puts the bits in front and keeps the buffer within its width |
| `Huffman.DecodingUndoesEncoding` | plugins/d2r/d2s/huffman.go:91-108 | the encoding of a symbol string reads as that string and as no other of its length, for any prefix-free table and whatever follows |
| `Huffman.DecodeChars` | plugins/d2r/d2s/items.go:276-284 | repeating decodeChar returns the one reading of that length or fails when there is none; on an encoded string it returns the string and stops where it ends |
| `Huffman.DecodingDeterministic` | plugins/d2r/d2s/huffman.go:91-108 | bits decode to at most one symbol string of a given length |
| `Huffman.HuffmanTree.Insert` | plugins/d2r/d2s/huffman.go:71-86 | inserting a code into the pointer tree adds exactly that symbol |
| `Huffman.NewHuffmanTree` | plugins/d2r/d2s/huffman.go:68-88 | the built tree holds exactly the table, whatever order the entries come in |
| `Huffman.HuffmanTree.DecodeChar` | plugins/d2r/d2s/huffman.go:91-108 | returns the one symbol whose code comes next and consumes exactly its code, or fails when none does |
| `HuffmanTables.ItemCodesPrefixFree` | plugins/d2r/d2s/huffman.go:27-65 | no code of the item table is a prefix of another |
| `HuffmanTables.OnlyTheGapIsUndecodable` | plugins/d2r/d2s/huffman.go:27-65 | nine or more bits decode exactly when they do not start with 000101111 |
| `MagicTable.PropertyWellLaid` | plugins/d2r/d2s/tables_properties.go:5-271 | every property's widths and packing fit together |
| `MagicLists.ReadUndoesWriteList` | plugins/d2r/d2s/items.go:625-705 | reading returns every list of known properties with values in range, compound and packed ones included, and stops just past the terminator |
| `MagicLists.WriteUndoesReadList` | plugins/d2r/d2s/items.go:625-705 | every list that is read has values in range and was written as those very bits |
| `MagicLists.ReadUndoesWriteProperty` | plugins/d2r/d2s/items.go:655-698 | one property's parameters and values survive packing, whichever of the packings applies |
| `MagicLists.ParseMagicalList` | plugins/d2r/d2s/items.go:625-705 | the loop agrees with the list format: attributes, position, and failure |
| `MagicMeaning.SingleAttribute` | plugins/d2r/d2s/items.go:642-655 | a property whose row counts none or one is nine bits of id and that property |
| `MagicMeaning.DoubleAttribute` | plugins/d2r/d2s/items.go:647-655 | one whose row counts two is followed by the property of the next id, and both make one attribute |
| `MagicMeaning.TripleAttribute` | plugins/d2r/d2s/items.go:647-655 | one whose row counts three, by the next two |
| `MagicMeaning.ListEnds` | plugins/d2r/d2s/items.go:633-640 | 0x1ff ends a list and an unknown id fails it |
| `MagicMeaning.SkillTabProperty` | plugins/d2r/d2s/items.go:661-674 | description 14 is three bits of tab and thirteen of class ahead of the value |
| `MagicMeaning.ChanceToCastProperty` | plugins/d2r/d2s/items.go:667-674 | encoding 2 is six bits of level and ten of skill ahead of the value |
| `MagicMeaning.ChargesProperty` | plugins/d2r/d2s/items.go:667-695 | encoding 3 packs level and skill alike, and then current and maximum charges in a byte each |
| `MagicMeaning.FireDamage` | plugins/d2r/d2s/items.go:642-655 | added fire damage, from its literal bits, is one attribute with its lower and its upper end |
| `Attributes.ReadUndoesWriteEntries` | plugins/d2r/d2s/attributes.go:45-106 | reading returns any list of attributes with values in range, whatever follows it |
| `Attributes.WriteUndoesReadEntries` | plugins/d2r/d2s/attributes.go:45-106 | nothing but a written attribute list is accepted |
| `Attributes.SectionConsumed` | plugins/d2r/d2s/parse.go:27-35 | an attribute section padded to whole bytes is consumed exactly, up to the skills section |
| `Attributes.ParseAttributes` | plugins/d2r/d2s/attributes.go:45-106 | every field ends with the last value listed for it, and the byte stream is left just past the bytes of the section |
| `Attributes.StoredAttribute` | plugins/d2r/d2s/attributes.go:26-43 | every attribute's value takes the bits of its kind, and an id of sixteen or more fails the section |
| `ItemFormat.WidthsComeFromTable` | plugins/d2r/d2s/items.go:528-552 | the widths used for defense, durability and quest difficulty are those of the property table |
| `ItemFormat.ReadItem` | plugins/d2r/d2s/items.go:50-101 | an item always ends on a byte boundary and takes at least four bytes |
| `ItemParser.Speculate` | plugins/d2r/d2s/items.go:423-432 | twelve bits are consumed if all equal and otherwise put back, looking at most that far ahead |
| `ItemParser.AlignItem` | plugins/d2r/d2s/items.go:101-101 | the boundary is always buffered, so alignment is never skipped |
| `ItemParser.ParseItem` | plugins/d2r/d2s/items.go:50-101 | reads the item the format describes up to its boundary; from version 0x69 on nothing stays looked ahead |
| `ItemWriter.ReadUndoesWriteItem` | plugins/d2r/d2s/items.go:108-620 | every item in range, written out field by field by an independent writer, is read back as itself: both formats, coded items and ears, simple or not, all eight qualities, the speculative bits present or absent, and any contents of the skipped bits |
| `ItemWriter.FlagsLie` | plugins/d2r/d2s/items.go:128-220 | the nine flags come from their own of the 32 bits |
| `ItemWriter.PlaceLies` | plugins/d2r/d2s/items.go:222-271 | version, location, slot, column, row and page come in that order |
| `ItemLists.NestSocketed` | plugins/d2r/d2s/items.go:82-92 | a socketed item goes under the last parent, resolved against it, and announces nothing |
| `ItemLists.NestTop` | plugins/d2r/d2s/items.go:93-98 | a top-level item keeps the stream order and adds the sockets it announces |
| `ItemLists.StreamGrows` | plugins/d2r/d2s/items.go:50-52 | reading one more item extends the stream by exactly what stands at its end |
| `ItemLists.ParseItems` | plugins/d2r/d2s/items.go:45-105 | flattening the result gives the stream in order with nothing lost or duplicated; the count plus the announced sockets are read and never one more; the byte stream is left at the next section from version 0x69 on and at most one byte further before |
| `ItemStreams.LaidOutListParsed` | plugins/d2r/d2s/items.go:45-105 | a list of items written out in full, as long as its count and its sockets say, is parsed successfully to exactly those items |
| `ItemLists.AnnouncedAlike` | plugins/d2r/d2s/items.go:94-97 | what the list announces is the sum of the socket counts in the tags of the items read, those socketed, simple or ears excepted |
| `ItemLists.GemInParent` | plugins/d2r/d2s/items.go:740-756 | a gem gets exactly the properties of its table row for its parent's kind, armor before shield before weapon, or keeps its own |
| `ItemLists.ParseItemList` | plugins/d2r/d2s/items.go:20-41 | a list without its header yields nothing; otherwise the items after it are read as above |
| `SaveSync.StepKeepsFresh` | internal/daemon/daemon.go:924-949 | no step leaves behind a remembered push or failure from an older generation |
| `SaveSync.NothingStaleRemembered` | internal/daemon/daemon.go:1793-1954 | over every interleaved run, each remembered push and failure was written by a parse that started at its game's current generation |
| `SaveSync.StepKeepsSynced` | internal/daemon/daemon.go:1965-2146 | every step that keeps to one parse per file and one file per identity keeps cache, threads and receiver in agreement |
| `SaveSync.RunKeepsSynced` | internal/daemon/daemon.go:1965-2146 | so does every run, interleaved with plugin changes and evictions |
| `SaveSync.CacheAgrees` | internal/daemon/daemon.go:309-329 | in every reachable state a cache entry equals what the receiver holds for its save, unless a push of that save is being recorded |
| `SaveSync.ReceiverHoldsParse` | internal/daemon/daemon.go:1994-2018 | after a delivered push, and after one skipped because nothing changed, the receiver holds every encodable section of that parse |
| `SaveSync.ExactUnlessStuck` | internal/daemon/daemon.go:2129-2145 | with sections that cannot be encoded, recorded hashes still equal the receiver's exactly if it holds no old copy of such a section |
| `SaveSync.OverlapDisagrees` | internal/daemon/daemon.go:2063-2108 | recorded in the opposite order to their delivery, two overlapping pushes of one file leave an entry the receiver does not cover exactly unless the later one neither dropped nor changed a section of the earlier |
| `SaveSync.OverlapHappens` | internal/daemon/daemon.go:1793-2108 | a run from the start shows it for any two different contents |
| `SaveSync.SharedIdentityDisagrees` | internal/daemon/daemon.go:309-328 | delivering one of two files with the same identity leaves the other's entry covered exactly unless it drops or changes one of its sections |
| `SaveSync.SharedIdentityHappens` | internal/daemon/daemon.go:1793-2108 | a run from the start shows it for any two different contents |
| `SaveSync.ParseKeepsAgreement` | internal/daemon/daemon.go:1793-1887 | an undisturbed parse keeps the agreement and, unless its send fails, leaves its sections with the receiver, also when its name is filled in from an earlier parse |
| `SaveHistory.NameRemembered` | internal/daemon/daemon.go:1956-1979 | over every run, a parse without a name gets the last name its file was parsed under since it was evicted, and "Unknown Player" exactly when there was none |
| `SaveHistory.PushedUnderName` | internal/daemon/daemon.go:2063-2108 | however parses interleave, a push changes the receiver's copy of exactly the name its parse resolved to |
| `SaveHistory.NamelessParsePushed` | internal/daemon/daemon.go:1965-2018 | a file parsed again without a name is pushed under its last name, and the receiver then holds the second parse |
| `SaveHistory.FailureRepeated` | internal/daemon/daemon.go:1889-1954 | over every run, a failure is suppressed exactly when it is the last one reported for its file with no success, eviction, removal or plugin change since |
| `SaveHistory.FailureReported` | internal/daemon/daemon.go:1889-1954 | an undisturbed failure is reported exactly when it is not that one and the send succeeds, and is remembered |
| `DirectoryUnits.RecordInjective` | internal/daemon/daemon.go:1350-1360 | a length-prefixed record cannot be confused with another, whatever the name |
| `DirectoryUnits.AggregateTellsApart` | internal/daemon/daemon.go:1332-1362 | two snapshots have the same aggregate exactly when no member differs and none was added or removed |
| `DirectoryUnits.AggregateHash` | internal/daemon/daemon.go:1343-1362 | hashes the sorted, length-prefixed members |
| `Daemons.Daemon.ChangePlugin` | internal/daemon/daemon.go:924-941 | starts a new generation and drops exactly the game's pushes, failures and snapshots |
| `Daemons.Daemon.FilterChangedSections` | internal/daemon/daemon.go:2115-2146 | keeps exactly the sections whose hash differs from the last push of this file under this identity, and hashes all encodable ones |
| `Daemons.Daemon.SendState` | internal/daemon/daemon.go:2063-2108 | lists every section, and remembers the hashes only of a delivered push of the current generation |
| `Daemons.Daemon.PushState` | internal/daemon/daemon.go:1980-2018 | pushes what changed, skips when nothing did or the generation is over |
| `Daemons.Daemon.ResolveIdentity` | internal/daemon/daemon.go:1965-1978 | an empty name is replaced by the last one seen in the file, which only a name from a parse ever updates |
| `Daemons.Daemon.HandleParseFailure` | internal/daemon/daemon.go:1889-1954 | reports a failure once per generation and remembers it only when delivered |
| `Daemons.Daemon.ParseAndPush` | internal/daemon/daemon.go:1793-1887 | the whole path has the outcome of the protocol's steps taken one after another |
| `Daemons.Daemon.DispatchDirectoryUnit` | internal/daemon/daemon.go:1387-1430 | parses exactly the snapshots that differ from the last one dispatched |
| `Daemons.Daemon.EvictUnwatchedPathCaches` | internal/daemon/daemon.go:2636-2657 | forgets exactly the paths in the directories |
| `Daemons.ProtoSections` | internal/daemon/daemon.go:2020-2061 | keeps exactly the convertible sections, in order of name |
| `Quiescence.StepKeepsOk` | internal/watcher/watcher.go:399-650 | every change, expiry, firing and lock acquisition keeps timers, generations and pending changes consistent |
| `Quiescence.AtMostOneLive` | internal/watcher/watcher.go:601-650 | in every reachable state at most one armed or in-flight timer carries a root's current generation |
| `Quiescence.PendingIsLive` | internal/watcher/watcher.go:399-632 | a change not yet covered by a committed event always has a timer or goroutine that will deliver it |
| `Quiescence.OwedUntilCommitted` | internal/watcher/watcher.go:399-650 | no change is lost: it stays owed until its root commits to an event, and only scheduled roots commit |
| `Quiescence.SupersededNeverEmits` | internal/watcher/watcher.go:601-650 | in every interleaving, a firing that was superseded while it waited for the lock sends no event from then on, and is not about to |
| `Quiescence.RescheduleSupersedes` | internal/watcher/watcher.go:607-631 | rescheduling a root whose expired timer still waits for the lock supersedes that firing |
| `Quiescence.RemoveStopsTimer` | internal/watcher/watcher.go:515-521 | removing a file stops its timer and no other |
| `Quiescence.StoppedNeverExpires` | internal/watcher/watcher.go:515-538 | a stopped timer expires in no run in which the file does not change again |
| `Quiescence.OneEventPerWindow` | internal/watcher/watcher.go:617-650 | over every run, events sent, about to be sent and due increase by exactly one for each schedule that finds nothing due for the root; schedules inside an open window and superseded firings add and lose none |
| `Quiescence.RootDrains` | internal/watcher/watcher.go:637-650 | a due root can reach its event in at most three steps, whatever else is pending |
| `Quiescence.UndisturbedRunsEnd` | internal/watcher/watcher.go:399-650 | without further changes no run is longer than the work that timers and goroutines still hold |
| `Quiescence.RestIsQuiet` | internal/watcher/watcher.go:399-650 | when nothing but further changes can happen, nothing is owed, due or about to be sent |
| `Quiescence.ChangeDrains` | internal/watcher/watcher.go:399-650 | from every state there is a way for a changed member to end in one event for its root |
| `Quiescence.EveryChangeIsDelivered` | internal/watcher/watcher.go:399-650 | in every run that comes to rest, each change owed before has been followed by an event for its root, nothing is owed any more, and the events sent are exactly those of the windows opened |
| `Watchers.FSWatcher.constructor` | internal/watcher/watcher.go:88-117 | a new watcher is in the initial state, which satisfies the invariant |
| `Watchers.FSWatcher.ScheduleFileDebounce` | internal/watcher/watcher.go:399-414 | arms the file's timer again and keeps the first operation of the window |
| `Watchers.FSWatcher.FireDebounced` | internal/watcher/watcher.go:540-560 | takes the file out of the maps, whichever timer they hold by then |
| `Watchers.FSWatcher.EmitChange` | internal/watcher/watcher.go:585-599 | a member's change schedules its root |
| `Watchers.FSWatcher.HandleRemove` | internal/watcher/watcher.go:515-538 | stops the file's timer, forgets its hash and schedules its root |
| `Watchers.FSWatcher.ScheduleDirectoryUnitEvent` | internal/watcher/watcher.go:617-632 | resets a timer that has not expired, and otherwise installs one of a new generation |
| `Watchers.FSWatcher.FireDirectoryUnitEvent` | internal/watcher/watcher.go:637-644 | commits exactly when its generation is still current |
| `Watchers.FSWatcher.FireDebouncedFile` | internal/watcher/watcher.go:540-579 | outside directory units and undisturbed, an event is emitted exactly for readable content that differs from the last emitted |
| `Watchers.FSWatcher.BeginFiring` | internal/watcher/watcher.go:540-546 | the first locked section takes the file out of the maps and remembers the first operation and the last emitted hash |
| `Watchers.FSWatcher.EndFiring` | internal/watcher/watcher.go:563-579 | the rest compares with the hash remembered then, not with the one stored now |
| `Watchers.RepeatsExactly` | internal/watcher/watcher.go:540-579 | of two firings of one file, the later repeats the content of the earlier exactly when it began before the earlier ended and had not seen that content |
| `Partition.LinearIsMaximal` | plugins/d2r/parser/main.go:608-618 | the linear scan stops at the longest part that fits |
| `Partition.GallopingEnd` | plugins/magic/parser/main.go:158-192 | doubling and bisecting pick the same cut as the linear scan |
| `Partition.GreedyIsAdmissible` | plugins/magic/parser/main.go:157-201 | the parts tile the list in order, and each fits or is a single element |
| `Partition.GreedyIsOptimal` | plugins/magic/parser/main.go:157-201 | no partition into allowed parts uses fewer parts |
| `Partition.GreedyPartsFit` | plugins/magic/parser/main.go:157-201 | every part has a size of at most the limit, unless it is a single element |
| `Partition.BuildGameSections` | plugins/magic/parser/main.go:139-203 | a log that fits is one section; otherwise its sections are exactly the greedy phases under their own names |
| `Partition.EmitStashTabSections` | plugins/d2r/parser/main.go:595-636 | the stash partitioner meets the same specification |
| `Partition.PartNamesDiffer` | plugins/magic/parser/main.go:194-194 | different phases of one game never share a name |
| `Partition.PartNamesSpelled` | plugins/magic/parser/main.go:194-194 | part names end in `:p` and the decimal number |
| `Partition.PhaseIndex` | plugins/magic/parser/main.go:307-314 | counting up terminates and lists names up to the first that is missing |
| `Partition.IndexListsAllPhases` | plugins/magic/parser/main.go:293-323 | the index of a split game leads to each of its phases in order, and lists exactly those unless another section bears the name of the next phase |
| `CardLookups.CollectCardLookup` | plugins/magic/parser/game_section_v3b.go:125-175 | the dictionary holds exactly the cards ever named, each under the first name it was given |
| `CardLookups.MentionsFirst` | plugins/magic/parser/game_section_v3b.go:138-156 | an action mentions the first card set of its eight kinds, in the order of the code |
| `CardLookups.DropUnresolvedNames` | plugins/magic/parser/game_section_v3b.go:168-175 | removes exactly the cards without a name |
| `CardLookups.MergeContribution` | plugins/magic/parser/main.go:206-213 | merging two dictionaries gives that of the turns one after the other |
| `CardLookups.PhaseLookup` | plugins/magic/parser/main.go:205-213 | a phase's dictionary is the one its own turns resolve to |
| `CardLookups.ResolvesUnique` | plugins/magic/parser/game_section_v3b.go:117-164 | turns determine their dictionary, so the merged one equals the one collected directly |
| `UnionFinds.RepresentativeIsRoot` | plugins/satisfactory/parser/unionfind.go:17-32 | following parents ends at the representative |
| `UnionFinds.SameRepIffUnited` | plugins/satisfactory/parser/unionfind.go:17-36 | two keys have the same representative exactly when the unions' equivalence closure relates them |
| `UnionFinds.SameRootIffUnited` | plugins/satisfactory/parser/unionfind.go:17-36 | the same, in terms of the parent links themselves |
| `UnionFinds.CompressionKeepsRoots` | plugins/satisfactory/parser/unionfind.go:27-30 | path compression changes no representative and keeps the forest acyclic |
| `UnionFinds.LinkMergesClasses` | plugins/satisfactory/parser/unionfind.go:34-36 | linking two roots merges exactly their classes |
| `UnionFinds.UnionFind.Find` | plugins/satisfactory/parser/unionfind.go:17-32 | terminates, returns the representative, registers new keys and changes no class |
| `UnionFinds.UnionFind.Union` | plugins/satisfactory/parser/unionfind.go:34-36 | adds exactly one pair to the unions |
| `ProductionLines.ClassOfActorPath` | plugins/satisfactory/parser/graph.go:21-26 | the class of an actor path is its last component without the instance number |
| `ProductionLines.PassthroughClasses` | plugins/satisfactory/parser/graph.go:33-46 | exactly the classes that start with one of eight words carry flow |
| `ProductionLines.BeltJoins` | plugins/satisfactory/parser/graph.go:22-46 | a belt of any kind puts the machines at its ends on one line |
| `ProductionLines.MachinesShareLineIffLinked` | plugins/satisfactory/parser/graph.go:52-133 | two machines share a line exactly when an undirected path of non-boundary nodes joins them |
| `ProductionLines.LineDetermined` | plugins/satisfactory/parser/graph.go:52-133 | a line's machines, terminals and transports are determined by any of its machines |
| `ProductionLines.ProductionLinesUnique` | plugins/satisfactory/parser/graph.go:52-133 | the links determine the whole result, down to its order |
| `ProductionLines.EdgeOrderAndDirectionIrrelevant` | plugins/satisfactory/parser/graph.go:52-133 | reordering, repeating or mirroring edges does not change the result |
| `ProductionLines.BuildProductionLines` | plugins/satisfactory/parser/graph.go:52-133 | the result is the production lines of the edges: components with machines, and exactly the boundary nodes that touch them |
| `BaseIndexes.MemberOfOwnBase` | plugins/satisfactory/parser/base_index.go:30-105 | a machine is in a base exactly when its cell is mapped to it |
| `BaseIndexes.MachinesShareBaseIffRegion` | plugins/satisfactory/parser/base_index.go:30-105 | two machines share a base exactly when a chain of touching occupied cells links them |
| `BaseIndexes.BasesPartitionMachines` | plugins/satisfactory/parser/base_index.go:30-105 | the bases together hold every machine exactly once |
| `BaseIndexes.NewBaseIndex` | plugins/satisfactory/parser/base_index.go:30-105 | builds such an index, ordered by size and anchor |
| `BaseIndexes.Assign` | plugins/satisfactory/parser/base_index.go:111-127 | a position in an occupied cell gets that cell's base, any other the lowest-numbered nearest centroid |
| `BaseIndexes.CellBounds` | plugins/satisfactory/parser/base_index.go:8-14 | a position is in a cell exactly when it lies within the cell's bounds, lower edges included |
| `BaseIndexes.CentroidBalances` | plugins/satisfactory/parser/naming.go:19-31 | the machines of a base balance around its centroid along every axis |
| `BaseIndexes.AssignMachine` | plugins/satisfactory/parser/base_index.go:107-127 | a machine's own position is assigned to the one base that holds it |
| `Sorting.StrictlySortedUnique` | plugins/satisfactory/parser/graph.go:119-145 | a strictly sorted sequence is determined by its elements, so sorted output is reproducible |
| `Sorting.SortedKeys` | plugins/satisfactory/parser/graph.go:135-145 | lists exactly the keys, in ascending order |
| `Versions.IsNewer` | internal/version/version.go:15-44 | the loop decides lexicographic order of zero-extended segments |
| `Versions.DottedRead` | internal/version/version.go:18-28 | numbers written in decimal between dots are read back |
| `Versions.VersionOrder` | internal/version/version.go:13-44 | being older is a strict weak order |
| `Versions.TiesAreEqualSegments` | internal/version/version.go:26-43 | neither of two versions is newer exactly when all their zero-extended segments agree |
| `PluginManagers.NeverRollsBack` | internal/pluginmgr/manager.go:147-326 | neither operation replaces the recorded artifact by one whose manifest version is older, and a replacement was verified against the manifest |
| `PluginManagers.RunNeverRollsBack` | internal/pluginmgr/manager.go:147-326 | compared with whatever was last recorded, evicted or not, a call of a run rolls back exactly when it reinstalls an older artifact of a plugin that is no longer cached; while it is cached no call does |
| `PluginManagers.VersionDropsOnlyByRetag` | internal/pluginmgr/manager.go:171-190 | a call lowers the recorded version exactly when the manifest offers the recorded artifact under an older version and the cache can be updated or rewritten |
| `PluginManagers.CachedOrNot` | internal/pluginmgr/manager.go:163-209 | a call makes a game uncached exactly when cached bytes fail verification, are evicted and are not replaced; an uncached game is installed exactly when EnsurePlugin downloads it, at any version |
| `PluginManagers.EnsuredLaw` | internal/pluginmgr/manager.go:163-210 | what EnsurePlugin leaves cached, in every case |
| `PluginManagers.UpdatedLaw` | internal/pluginmgr/manager.go:278-326 | what an update check leaves cached, in every case |
| `PluginManagers.Upgrades` | internal/pluginmgr/manager.go:147-326 | a cached plugin of another version and hash, not newer than the manifest's, is replaced by a download that arrives and verifies |
| `PluginManagers.EvictionForgetsAnchor` | internal/pluginmgr/manager.go:477-500 | after such an eviction the next EnsurePlugin installs an older artifact |
| `PluginManagers.RetagForgetsAnchor` | internal/pluginmgr/manager.go:215-231 | after such a re-tag an artifact older than the first recorded one is accepted |
| `PluginManagers.OneCallKeepsVersion` | internal/pluginmgr/manager.go:147-326 | over a run, evictions included, the last recorded version goes down at a call exactly when it re-tags the cached artifact downwards or reinstalls an evicted plugin at an older version |
| `PluginManagers.RunKeepsVersion` | internal/pluginmgr/manager.go:147-326 | over any stretch of a run without such a call the last recorded version never becomes older than at any earlier point |
| `PluginManagers.Manager.EnsureListed` | internal/pluginmgr/manager.go:165-209 | cache hit, re-tag, eviction, refusal and download change the game's entry as specified and no other, and it succeeds exactly when verified bytes are there and load |
| `PluginManagers.Manager.EnsurePlugin` | internal/pluginmgr/manager.go:147-210 | without a local override the manifest is refreshed, a listed game's entry becomes exactly what EnsuredLaw says, nothing else in the cache changes, and success is decided exactly in every case, filtered and unlisted games included |
| `PluginManagers.Manager.ResolveManifestEntry` | internal/pluginmgr/manager.go:412-447 | fetches for want of a manifest and again for an unlisted game, and fails exactly when a fetch it needs does |
| `PluginManagers.WhichManifest` | internal/pluginmgr/manager.go:412-447 | which manifest is in use after a lookup, in every case |
| `PluginManagers.SupportedExactly` | internal/pluginmgr/manager.go:84-118 | the entries kept are those whose minimum daemon version is absent or met, or all when the daemon's cannot be compared |
| `PluginManagers.Manager.LoadFromCache` | internal/pluginmgr/manager.go:382-403 | bytes that fail verification are never loaded but evicted |
| `PluginManagers.Manager.CheckRemotePlugins` | internal/pluginmgr/manager.go:268-326 | every listed game not handled locally is updated as specified, independently of the order, and exactly those downloaded, written and loaded are named |
| `PluginManagers.Manager.SetManifest` | internal/pluginmgr/manager.go:84-118 | keeps exactly the plugins this daemon is new enough for, or all when its version cannot be compared |
| `PluginOutput.WindowNewline` | internal/runner/wazero.go:331-340 | the first newline of a window is the first of the stream |
| `PluginOutput.LineScanner.Deliver` | internal/runner/wazero.go:331-352 | one call of the splitter on the window delivers the next reference line, or none while keeping all that remain |
| `PluginOutput.LineScanner.Scan` | internal/runner/wazero.go:263-277 | delivers the next reference line with its flag, however the stream is chunked |
| `PluginOutput.ParsePluginOutput` | internal/runner/wazero.go:259-321 | however the stream is chunked, statuses come in order, and the last result within the limit and the last failure are those of the reference lines |
| `PluginOutput.LastResultIs` | internal/runner/wazero.go:281-296 | the result is that of the last line that carries one of acceptable size, and absent exactly when no line does |
| `PluginOutput.LastFailureIs` | internal/runner/wazero.go:270-300 | the failure is that of the last line that fails or exceeds a limit |

## Left out

- Tray, dialogs, toasts, services, installers and the C# user interface: operating-system plumbing.
- HTTP, WebSocket dialling, fsnotify, the wazero runtime, protobuf, gzip and JSON: replaced by parameters (delivered or not, size, decoded message).
- Ed25519 and SHA-256: verification is a predicate on an artifact, hashes are injective constructors.
- The file system: glob expansion, known folders and partial writes; the plugin cache is a map whose writes happen completely or not at all.
- Floating-point semantics: GVAS floats are bit patterns, positions and centroids are reals.
- Name tables for items, skills and affixes, breakpoint lookup and stat sums: true but easy.
- Memory: Go's allocation of a slice for a hostile element count, and stack exhaustion by nested structs.
- GvasReader.Reader.ReadScalarValue: the fixed-layout value types share one loop over a table of field widths where the source spells out each read.
- ItemLists.ParseItems: before version 0x69 the position is known to within one byte only, since un-read bits may remain.
- BitReaders.BitReader.ReadBits: widths up to 64 for which the bytes drawn would overflow the 64-bit buffer; BitReaders.OverfullByte says when bits are lost.
- Quiescence.StepKeepsOk: directory-unit roots and their member directories are fixed; removing or adding them mid-run is not modelled.
- Daemons.Daemon.ParseAndPush: messages other than the push itself (started, completed, status, failed) are not part of the state.
- PluginManagers.Manager.EnsurePlugin: local plugins only leave the cache alone; when they are reloaded is not modelled.
- PluginManagers.OneCallKeepsVersion: manifest versions and hashes that carry surrounding white space, which the cache trims when it reads them back.
- ProductionLines.BuildProductionLines: the order of lines is proved for the code's comparison, under which different lines never tie.
- Partition.BuildGameSections: the content of a phase other than its interval, number and card dictionary.
- Watch bookkeeping under nested roots or failed re-adds, backoff counters, the log ring buffer, and the RimWorld partitioner.
