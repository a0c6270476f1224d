# A verified model of the MCom-03 secondary bootloader

This project states and proves what the computational core of the MCom-03
secondary bootloader promises: the arithmetic behind its signature check, the
flattened device tree it builds and reads, the executor of signed images, the
environment store with its A/B slot protocol and the flash driver below it,
AES-128 and SHA-256, and the IOMMU windows shared by the RISC0 mailbox server.
Code that works by changing things step by step is modelled by classes, arrays
and loops, each proved against a specification; the specifications are datatypes
and functions, and lemmas prove about them what the system promises.

Verify everything with `dafny verify dfyconfig.toml`.

## Components

- **Big integers** (`Radix`, `BigInts`, `QuotientDigit`, `Division`, `Multiply`,
  `Barrett`, `ModPower`; bytes and signatures in `Bytes`, `Signature`). Numbers
  are component arrays in base 2^32, meaning `Val`. Long division is exact: the
  guessed quotient digit is the true one or one more, so one add-back suffices.
  Barrett's estimate never exceeds the quotient and is at most 3 below it; the
  result is congruent and below 3m. Modular exponentiation is congruent to
  base^exponent, and reduced exactly when the last reduction is complete; a
  signature is accepted exactly when the exported power is the EMSA-PKCS1-v1_5
  encoding of the digest.
- **Device tree** (`FdtBlob`, `FdtCheck`, `FdtWalk`, `FdtLayout`, `FdtState`,
  `FdtFinish`, `FdtBytes`, `FdtWriter`). Blobs are byte arrays. A writer object logs the
  calls that succeeded; after `fdt_finish` the reader's tag stream is that log,
  and all names and values read back. The validator returns 0 exactly on the
  valid blobs, and on those the walkers report nodes, depths, children, parents.
- **Signed image executor** (`Executor`). An object with root, certificate
  array, index, end flag and key. Over every run on a part that forces
  signatures, every accepted payload was verified under one end certificate
  whose checked chain reaches the fused root, and the accepted payloads are
  exactly the payload objects passed.
- **Environment and slots** (`EnvList`, `EnvText`, `EnvState`, `EnvIo`, `Env`,
  `EnvSlots`, with flash in `SpiNor` and `EnvFlash`). Variables and flags are
  lists that agree with plain maps over every run; storage round trips; a boot on
  one flash chip with three areas is a step of the slot protocol and changes no
  other cell; a new volume is tried once, and only once, and the fallback
  restores the U-Boot variables.
- **AES-128 and SHA-256** (`AesField`, `AesCipher`, `Aes`, `AesModes`, `AesVectors`;
  `Sha256Spec`, `Sha256`, `Sha256Vectors`). Inverses in both directions for every
  round-key schedule, CBC and CTR round trips, and streamed hashing equal to the
  standard digest of the whole message. The S-box is derived from the field, the
  SHA-256 constants from the primes, and the examples of the standards are proved.
- **IOMMU and mailbox server** (`Iommu`, `Queue`, `Ipc`). Page-table entries
  encode the live windows; every interleaving of interrupts and main-loop turns
  handles commands in arrival order and leaves the windows as they were.

## What the code does not promise

Each of these is stated exactly, as a condition in a contract or by a lemma with
a concrete input.

- The normalising factor of `bi_divide` and `bi_set_mod` is computed in 32 bits
  and divides by zero if and only if the leading component is 2^32 - 1
  (`Division.Context.Divide`, `Barrett.SetMod`, carried up to
  `Signature.SignatureVerifyHash` as a fault).
- `bi_barrett` subtracts the modulus once. Its result is fully reduced if and
  only if the estimate is at most one short (`Barrett.BarrettStep`); a number for
  which it is two short is given (`Barrett.TwoShort`). A power is reduced if and
  only if this holds for the number reduced last (`ModPower.Power`), and then a
  genuine signature is accepted (`Signature.SignatureVerifyHash`).
- The room test of `fdt_add_string_` wraps around: the copy leaves the buffer if
  and only if string table and name together exceed the total size. A name
  shorter than the buffer is not enough (`FdtWriter.AddString`,
  `FdtWriter.ShortNameSlips`).
- A blob of total size 2^31 - 1 passes the header check but not `fdt_ro_probe_`,
  so the read-only functions refuse it, and the validator accepts it only
  without any tag (`FdtWalk.ParentOffset`, `FdtFinish.CompleteValid`).
- A reservation of size zero ends the list for the reader
  (`FdtFinish.ReserveReadsBack`).
- An environment with flags comes back from storage if and only if no flag
  attribute contains a comma (`EnvIo.RoundTrip`, `EnvIo.CommaExample`).
- Deleting a key that is not there compares the iterator with an index that was
  never set; the parameter `junk` stands for it (`Env.Context.Set`).
- The space test of the printer allows four bytes more than the data area has:
  the print leaves the area if and only if some prefix of the list ends in those
  four bytes (`Env.PrintAll`, `Env.OverrunExample`).
- An import with the right checksum reads past the stored area if and only if
  every record that ends in a NUL is a variable, a legal name before a
  separator: only an empty record or a bad one stops the loop
  (`Env.Context.Import`, `EnvText.OffEndIff`, `EnvText.OffEndExamples`).
- After a fallback the flags and the derived flag variable are those before the
  attempt if and only if the two agreed in storage (`EnvSlots.FallbackRestores`);
  an area where they do not is given (`EnvIo.UnsettledExample`).
- The size test of `spi_nor_write` passes ranges that wrap around 2^32
  (`SpiNor.Write`). Erasing starts at the sector that contains the address, and
  a count of zero erases the chip (`SpiNor.Erase`).
- The search for a key's certificate reads past the array if the id is unknown,
  verification dereferences a certificate slot before it compares the index, and
  the copy of a verified key stays inside its buffer only for sizes 0 and 16
  (`Executor.Executor.HandleKey`, `Executor.Executor.Verify`). A root certificate
  may be replaced, by one with the same fingerprint, until the first CA
  certificate has been accepted (`Executor.Executor.HandleRoot`).
- `iommu_map_range` rounds the 32-bit start down to 2 MiB and the 64-bit start
  down to 4 KiB only, so a start off the 2 MiB boundary leads to the requested
  page plus its offset in the window (`Iommu.Device.MapRange`).
- The OTP dump is limited by the requested size cut to sixteen bits
  (`Ipc.Server.Otp`).

## Model

| member | source | states |
|---|---|---|
| `BigInts.Add` | third-party/crypto/bigint.c:284-318 | the component array after the carry loop has exactly the value a + b, one component larger before trimming, whatever the operand sizes |
| `BigInts.Subtract` | third-party/crypto/bigint.c:325-356 | the value becomes (a - b) modulo B^size and the negative flag is set exactly when a < b |
| `BigInts.IntMultiply` | third-party/crypto/bigint.c:361-394 | value a * b for one component b, carries included |
| `BigInts.IntDivide` | third-party/crypto/bigint.c:539-557 | exact floor quotient by one component |
| `BigInts.Compare` | third-party/crypto/bigint.c:1156-1193 | for trimmed numbers the result is the sign of the difference of the values, so 0 means equal values |
| `Radix.TrimmedInjective` | third-party/crypto/bigint.c:1156-1193 | trimmed numbers of equal value are the same components |
| `BigInts.CompRightShift` | third-party/crypto/bigint.c:591-613 | division by a power of the radix, also when more components are dropped than there are |
| `BigInts.CompLeftShift` | third-party/crypto/bigint.c:618-645 | multiplication by a power of the radix |
| `BigInts.CompMod` | third-party/crypto/bigint.c:1404-1416 | reduction modulo a power of the radix |
| `QuotientDigit.GuessBound` | third-party/crypto/bigint.c:460-481 | for every window below B * V and every normalised divisor the guessed digit, after the one correction with the second digits, is the true digit or one more |
| `QuotientDigit.UnrefutedAtMostOne` | third-party/crypto/bigint.c:467-480 | a guess that the second digits do not refute is at most one too high |
| `QuotientDigit.NormalisingFactor` | third-party/crypto/bigint.c:424-447 | multiplying by B / (leading + 1) brings the leading component to at least B/2 without a new component |
| `Division.DivideDigit` | third-party/crypto/bigint.c:460-515 | guess, multiply, subtract and at most one add-back give the true digit and the true remainder of the window |
| `Division.LongDivisionRound` | third-party/crypto/bigint.c:455-519 | one round of the loop keeps quotient-so-far * V + what is left = U |
| `Division.DivideLoop` | third-party/crypto/bigint.c:455-519 | after the loop the quotient is floor(U / V) and the numerator holds U mod V |
| `Division.Context.Divide` | third-party/crypto/bigint.c:399-534 | exactly floor(u / v), or in mod mode u mod v with the prepared normalised modulus; the 32-bit factor divides by zero if and only if the leading component is 2^32 - 1 |
| `Multiply.RowsAreColumns` | third-party/crypto/bigint.c:882-933 | the outer partial product is the sum of exactly the columns from outer - 1 on |
| `Multiply.KeptPlusLoss` | third-party/crypto/bigint.c:882-933 | kept rows plus left-out products are the whole product |
| `Multiply.LossBound` | third-party/crypto/bigint.c:882-933 | what an outer partial leaves out is non-negative and at most min(rows, outer) * B^outer; nothing is left out without a cut |
| `Multiply.RegularMultiply` | third-party/crypto/bigint.c:882-933 | the loop computes the kept rows modulo the inner cut, for every combination of inner and outer partial |
| `Multiply.Product` | third-party/crypto/bigint.c:1053-1069 | without partials the result is the product of the values |
| `Barrett.SetMod` | third-party/crypto/bigint.c:784-850 | prepares normalised modulus and mu = floor(B^2k / m); fails if and only if the leading component is 2^32 - 1 |
| `Barrett.EstimateError` | third-party/crypto/bigint.c:1442-1449 | the estimate from the truncated product never exceeds floor(x / m) and is at most three below it |
| `Barrett.EstimateBound` | third-party/crypto/bigint.c:1442-1449 | any loss below B^(k+1) keeps the estimate within three of the quotient and never above it |
| `Barrett.OneSubtraction` | third-party/crypto/bigint.c:1465-1471 | one final subtraction is a full reduction if and only if the estimate is at most one short |
| `Barrett.TwoShort` | third-party/crypto/bigint.c:1465-1471 | a four-component number and a modulus for which the estimate is two short and the result is not below the modulus |
| `Barrett.InnerPartial` | third-party/crypto/bigint.c:1453-1457 | the inner partial product agrees with the product modulo B^(k+1) |
| `Barrett.SubtractMultiple` | third-party/crypto/bigint.c:1450-1463 | the difference computed modulo B^(k+1) is the true difference |
| `Barrett.BarrettStep` | third-party/crypto/bigint.c:1422-1474 | for at most 2k components the result is exactly the value of the truncated reduction: congruent to x, below 3m, and equal to x mod m if and only if the estimate is at most one short |
| `Barrett.BarrettReduce` | third-party/crypto/bigint.c:1422-1474 | for every x the exact value, larger ones going through division: congruent to x, below 3m, and x mod m if and only if the number was divided or its estimate is at most one short |
| `Barrett.ReducedMeans` | third-party/crypto/bigint.c:1422-1474 | the value of the reduction as a function of x and m: congruent, below 3m, x mod m if and only if the reduction is complete, and x itself for x below m |
| `ModPower.FindMaxExpIndex` | third-party/crypto/bigint.c:1269-1289 | position of the highest set bit |
| `ModPower.ExpBitIsOne` | third-party/crypto/bigint.c:1294-1309 | the bit of the value at that position |
| `ModPower.PowerStep` | third-party/crypto/bigint.c:1589-1645 | one exponent bit: exactly the reduced square, and exactly the reduced product with the base when the bit is set |
| `ModPower.PowerLoop` | third-party/crypto/bigint.c:1589-1645 | over all bits the accumulator is exactly the power by squaring of the exponent under the given reduction |
| `ModPower.Power` | third-party/crypto/bigint.c:1538-1662 | for every base and exponent: congruent to base^exponent and below 3m although residues may be unreduced and Barrett and classical reduction mix; equal to base^exponent mod m if and only if the last reduction is complete; a base below m to the power 1 is the base |
| `ModPower.PowerMeans` | third-party/crypto/bigint.c:1589-1645 | for any reduction that gives small congruent numbers, the power by squaring is congruent to the power, and reduced if and only if the last reduction is |
| `ModPower.FirstPower` | third-party/crypto/bigint.c:1589-1645 | where numbers below m stay, a base below m to the power 1 stays |
| `ModPower.PowerFacts` | third-party/crypto/bigint.c:1538-1662 | the same for the reduction of the code: base^exponent mod m if and only if the estimate for the last product is at most one short or that product was divided |
| `Signature.Import` | third-party/crypto/bigint.c:653-674 | trimmed number with exactly the big-endian value of the bytes |
| `Signature.Export` | third-party/crypto/bigint.c:745-769 | the low bytes of the value, most significant first, zero padded |
| `Bytes.BytesRoundTrip` | third-party/crypto/bigint.c:653-769 | export undoes import at the same length |
| `Bytes.ValueRoundTrip` | third-party/crypto/bigint.c:653-769 | import undoes export up to the bytes that did not fit |
| `Signature.CheckBlock` | libs/sbimage/sbexecutor.c:128-151 | accepts exactly the blocks that are the EMSA-PKCS1-v1_5 frame (section 9.2 of RFC 8017) around a 32-byte hash |
| `Signature.SigVerify` | libs/sbimage/sbexecutor.c:91-159 | recovers the hash if and only if the exported power is such a block; the power is exactly that of the code; a modulus bi_set_mod cannot prepare is a fault |
| `Signature.SignatureVerifyHash` | libs/sbimage/sbexecutor.c:282-320 | acceptance if and only if the exported power is byte for byte the encoding of the given digest; when the modulus fits the block and the last reduction is complete, if and only if s^e mod m is the encoded number, so a genuine signature is then never refused |
| `Signature.CompleteIff` | third-party/crypto/bigint.c:1465-1471 | the last reduction of a signature power is complete if and only if its estimate is at most one short or the number was divided |
| `Signature.GenuineIff` | libs/sbimage/sbexecutor.c:282-320 | for a complete power the exported bytes are the encoding if and only if s^e mod m is the encoded number |
| `Signature.AcceptedIsRoot` | libs/sbimage/sbexecutor.c:282-320 | acceptance makes the encoding, plus whatever multiple of 256^n the export cut off, the e-th power of the signature modulo the modulus; nothing is cut off from a number that fits |
| `FdtBlob.OffsetPtrIsRange` | third-party/libfdt/fdt.c:140-160 | the three wrap-around tests mean: the range lies in the structure block |
| `FdtBlob.FdtNextTag` | third-party/libfdt/fdt.c:162-221 | 32-bit scanning of the blob equals the tag function of its structure block, errors included |
| `FdtBlob.NextTag` | third-party/libfdt/fdt.c:162-221 | a tag that is read advances by at least four, stays aligned and inside the block; everything else is one of two error codes |
| `FdtCheck.CheckedHeader` | third-party/libfdt/fdt.c:52-138 | the header check passes if and only if both blocks lie between header and end |
| `FdtCheck.GetString` | third-party/libfdt/fdt_ro.c:34-98 | a string found is NUL-terminated inside the string block with no NUL before its end |
| `FdtCheck.NumMemRsv` | third-party/libfdt/fdt_ro.c:160-199 | index of the first terminating reservation entry, or truncated when there is none inside the blob |
| `FdtCheck.CheckEntry` | third-party/libfdt/fdt_check.c:45-94 | one tag passes if and only if it is in order after the tags before it |
| `FdtCheck.CheckTags` | third-party/libfdt/fdt_check.c:38-96 | terminates, and returns 0 if and only if the tag stream is complete, balanced, single-rooted with an empty root name, and all names and values lie in their blocks |
| `FdtCheck.CheckFull` | third-party/libfdt/fdt_check.c:13-96 | returns 0 if and only if the blob is valid in that sense |
| `FdtWalk.DepthNonnegative` | third-party/libfdt/fdt_check.c:77-83 | begin and end tags of a checked blob are balanced at every prefix |
| `FdtWalk.SingleRoot` | third-party/libfdt/fdt_check.c:58-75 | exactly one node at depth zero, its name empty |
| `FdtWalk.NextNodeAbove` | third-party/libfdt/fdt.c:247-285 | the next begin tag unless a closing tag drops the counter below zero first, with the counter equal to the relative depth |
| `FdtWalk.NextNode` | third-party/libfdt/fdt.c:247-285 | over the whole tree: the next node in offset order with its nesting depth, or the end |
| `FdtWalk.ListNodes` | third-party/libfdt/fdt.c:247-285 | repeated calls return every node offset once, in increasing order, each with its nesting depth, and no other offset |
| `FdtWalk.NodesExact` | third-party/libfdt/fdt.c:247-285 | the list of the walk holds every node with its offset and depth, nothing else, by strictly increasing offset |
| `FdtWalk.TreeIsWalkable` | third-party/libfdt/fdt_check.c:13-96 | every blob the validator accepts with its root at offset 0 has what the walkers rely on |
| `FdtWalk.FirstSubnode` | third-party/libfdt/fdt.c:287-296 | the first child, or not found if and only if there is none |
| `FdtWalk.NextSubnode` | third-party/libfdt/fdt.c:298-313 | the next child of the same parent with none skipped, or not found when there are no more |
| `FdtWalk.InnermostEnclosing` | third-party/libfdt/fdt_ro.c:594-630 | the ancestor one level up is the innermost node still open |
| `FdtWalk.SupernodeAtDepth` | third-party/libfdt/fdt_ro.c:594-630 | ancestor offset at every depth and the node depth; an error for offsets that are no node |
| `FdtWalk.NodeDepth` | third-party/libfdt/fdt_ro.c:632-642 | nesting depth of every node |
| `FdtWalk.ParentOffset` | third-party/libfdt/fdt_ro.c:644-652 | offset of the innermost enclosing node; not found for the root; an error for offsets that are no node and for a blob the probe refuses |
| `FdtLayout.TagOfCall` | third-party/libfdt/fdt.c:162-221 | a written call reads back as one tag with its node name |
| `FdtLayout.StreamOfCalls` | third-party/libfdt/fdt_sw.c:219-334 | the tag stream of a laid-out block is exactly the call sequence (section 5.4 of the Devicetree Specification) |
| `FdtLayout.NamesInLonger` | third-party/libfdt/fdt_sw.c:250-291 | names found from the end of the table stay where they are as the table grows |
| `FdtState.HeadSet` | third-party/libfdt/fdt_sw.c:109-141 | setting one header word changes that word alone |
| `FdtState.BuildingExtend` | third-party/libfdt/fdt_sw.c:219-248 | one more call in the free room keeps all earlier calls and names |
| `FdtState.BuildingTable` | third-party/libfdt/fdt_sw.c:250-291 | growing or shrinking the string table in the free room keeps all calls and names |
| `FdtFinish.Relocate` | third-party/libfdt/fdt_sw.c:351-356 | moving the string table down over the gap keeps every call and the table |
| `FdtFinish.AllMoved` | third-party/libfdt/fdt_sw.c:365-377 | adding the table size turns offsets from the end into offsets from the start |
| `FdtFinish.RenameStep` | third-party/libfdt/fdt_sw.c:365-377 | rewriting one name offset leaves every other call, the header and the strings as they are |
| `FdtFinish.CompleteStream` | third-party/libfdt/fdt_sw.c:337-384 | the finished blob passes the header check and its tag stream is exactly the call sequence |
| `FdtFinish.CompleteReadsBack` | third-party/libfdt/fdt_ro.c:34-98 | node names, property names and values of every call read back unchanged despite suffix sharing and relocation |
| `FdtFinish.ReserveReadsBack` | third-party/libfdt/fdt_sw.c:188-217 | the reader takes an entry for the terminating one if and only if its size is zero, so it counts all entries if and only if no earlier one has size zero |
| `FdtFinish.CompleteValid` | third-party/libfdt/fdt_check.c:13-96 | the validator accepts the finished blob if and only if the calls form one tree with a nameless root and, at total size 2^31 - 1, there are none |
| `FdtBytes.WordIs` | third-party/libfdt/fdt.c:162-221 | a 32-bit read gives the value of four bytes if and only if those are the bytes, most significant first |
| `FdtBytes.TokenBytes` | third-party/libfdt/fdt_sw.c:219-335 | every call starts with the token bytes of section 5.4.1 of the Devicetree Specification; a property goes on with the length of its value and its name offset, big-endian |
| `FdtBytes.FixedBytes` | third-party/libfdt/fdt_sw.c:337-384 | magic number, version and compatible version of a finished blob, and its end token, as bytes at their places |
| `FdtBytes.NodeBytes` | third-party/libfdt/fdt.c:162-221 | 36 given bytes are one node with one property as the writer lays it out, and are read as those three tags |
| `FdtWriter.FindString` | third-party/libfdt/fdt.c:315-325 | first place of the name with its NUL in the table, suffixes of longer names included, or none |
| `FdtWriter.GrabSpace` | third-party/libfdt/fdt_sw.c:94-107 | space is granted if and only if it fits between the structure block and the strings |
| `FdtWriter.StringRoom` | third-party/libfdt/fdt_sw.c:250-262 | what the 32-bit room test lets through: names that fit, and names that reach below the buffer |
| `FdtWriter.ShortNameSlips` | third-party/libfdt/fdt_sw.c:250-262 | a writer with 128 bytes takes a property with a 39-byte name, and the 99-byte name of the next one is copied outside the buffer |
| `FdtWriter.AddString` | third-party/libfdt/fdt_sw.c:250-266 | the name goes in front of the table; the copy leaves the buffer if and only if table and name exceed the total size |
| `FdtWriter.AddName` | third-party/libfdt/fdt_sw.c:276-306 | shares an existing copy exactly when de-duplication is on and there is one |
| `FdtWriter.FixNames` | third-party/libfdt/fdt_sw.c:363-377 | the walk rewrites every property once, following tags it is itself changing |
| `FdtWriter.Writer.Create` | third-party/libfdt/fdt_sw.c:109-146 | error codes, and the empty reservation phase |
| `FdtWriter.Writer.AddReserveEntry` | third-party/libfdt/fdt_sw.c:188-206 | appends the entry or reports no space, in the right phase only |
| `FdtWriter.Writer.FinishReservemap` | third-party/libfdt/fdt_sw.c:208-217 | terminates the reservation block and opens the structure phase |
| `FdtWriter.Writer.BeginNode` | third-party/libfdt/fdt_sw.c:219-234 | succeeds if and only if it fits; the log of calls grows by this one, all others keep reading back |
| `FdtWriter.Writer.EndNode` | third-party/libfdt/fdt_sw.c:236-248 | the same for an end tag |
| `FdtWriter.Writer.Property` | third-party/libfdt/fdt_sw.c:293-335 | success, no-space with rollback and the out-of-buffer copy each characterised exactly |
| `FdtWriter.Writer.Finish` | third-party/libfdt/fdt_sw.c:337-384 | the whole-run result: the blob of any successful call sequence reads back as that sequence, reservations included |
| `Executor.Executor.DoAct` | libs/sbimage/sbexecutor.c:449-528 | one act on the payload: when deciphering, the digest check or verification under the certificate at cert_index succeeds, and what it does to the bytes |
| `Executor.ChainMeans` | libs/sbimage/sbexecutor.c:162-280 | a checked chain names and signs link by link, has only CA certificates between leaf and root, and ends in a self-signed root with the fused fingerprint |
| `Executor.CertAccepted` | libs/sbimage/sbexecutor.c:162-280 | when one certificate passes, as an if and only if over CA flag, key usage, path length, names and signature, with and without an issuer in the array |
| `Executor.Executor.HandleRoot` | libs/sbimage/sbexecutor.c:783-794 | accepted if and only if first, parsed, self-verified and equal to rotpk |
| `Executor.Executor.FindIssuer` | libs/sbimage/sbexecutor.c:813-822 | the root if it has the issuer name, else the latest loaded CA certificate that has it |
| `Executor.Executor.HandleCert` | libs/sbimage/sbexecutor.c:796-834 | accepted if and only if no end certificate yet, room, a root, a new id, and a checked issuer; the slot then holds the chain |
| `Executor.Executor.HandleKey` | libs/sbimage/sbexecutor.c:836-847 | accepted, and a fault, each if and only if a condition on header, certificates and signature holds: an unknown id, an empty slot or a verified key whose size is neither 0 nor 16 are the faults; an accepted key was verified under the first certificate with the given id, a checked one |
| `Executor.Executor.Verify` | libs/sbimage/sbexecutor.c:431-447 | good only under the key of a loaded certificate up to the index; an empty slot is a fault |
| `Executor.Executor.ImageHandle` | libs/sbimage/sbexecutor.c:449-528 | succeeds if and only if key, checksum, signature and image callback agree; reads a missing certificate if and only if the signature is looked at without one; what lies at the load address afterwards, zeroed unless the callback refused it |
| `Executor.Executor.HandlePayload` | libs/sbimage/sbexecutor.c:849-870 | accepted if and only if permitted, loadable, handled and, when it is to be run and return, runnable; the record of what was verified and loaded |
| `Executor.Executor.HandledTrusted` | libs/sbimage/sbexecutor.c:449-528 | on a force_sign part a handled payload was verified under the certificate at cert_index, a checked non-CA one, and the loaded bytes are the verified text or its decryption |
| `Executor.Executor.Update` | libs/sbimage/sbexecutor.c:738-885 | bad header id and bad header hash each if and only if; for every kind of object success, and a fault, if and only if its own condition holds, with the whole new state: root, certificate slot, key, or the payload added to the accepted ones; LOAD_FINISH exactly for an accepted payload that does not return; the offset advances by the image size; the end certificate never changes once loaded |
| `Executor.Executor.Dispatch` | libs/sbimage/sbexecutor.c:782-874 | the switch: one condition and one effect per kind of object, payloads loaded and recorded, unknown objects accepted without effect |
| `Executor.Executor.Enrol` | libs/sbimage/sbexecutor.c:783-847 | the kinds that load nothing: root, certificate and key with their conditions and the slot they fill |
| `Executor.ImageCovers` | libs/sbimage/sbexecutor.c:752-759 | an image takes header, signature and data up to the next boundary, 16 bytes when encrypted and 4 when not, and no more |
| `Executor.Executor.Run` | sbl-s2/main.c:430-436 | in every run until the first status other than NO_ERR, whatever lies in memory before each step, all accepted payloads were verified under one non-CA certificate chained to the fused root; they are exactly the payload objects among those passed, in order; after LOAD_FINISH the last of them is the object that does not return |
| `Executor.WalkedMore` | libs/sbimage/sbexecutor.c:738-885 | one more object passed adds itself to the accepted payloads if it is one and nothing otherwise |
| `Executor.Executor.Abort` | libs/sbimage/sbexecutor.c:530-548 | back to the state with no certificate |
| `Sha256.ChoicesAgree` | third-party/crypto/sha256.c:108-109 | the short forms of majority and choice are those of section 4.1.2 of FIPS 180-4 |
| `Sha256.BigSigmasAgree` | third-party/crypto/sha256.c:105-106 | the macros S2 and S3 are the big sigma functions |
| `Sha256.SmallSigmasAgree` | third-party/crypto/sha256.c:102-103 | the macros S0 and S1 are the small sigma functions |
| `Sha256.GetWordValue` | third-party/crypto/sha256.c:35-41 | shifts and ors give the big-endian word |
| `Sha256.P` | third-party/crypto/sha256.c:117-122 | the macro on renamed registers is one standard round |
| `Sha256.R` | third-party/crypto/sha256.c:111-115 | the macro extends the message schedule |
| `Sha256.LineConstants` | third-party/crypto/sha256.c:133-196 | the 64 literals of the lines are the constants of section 4.2.2 of FIPS 180-4 |
| `Sha256.EightRounds` | third-party/crypto/sha256.c:133-140 | eight lines with renamed registers and the literals of the code are eight standard rounds, names restored |
| `Sha256.Process` | third-party/crypto/sha256.c:77-206 | the unrolled function is the compression of section 6.2.2 of FIPS 180-4 on every block |
| `Sha256Vectors.DigestOfAbc` | third-party/crypto/sha256.c:77-274 | the digest of the message abc is the published one, through all 64 rounds and the feed-forward |
| `Sha256Vectors.PrimesInOrder` | third-party/crypto/sha256.c:133-196 | the 64 numbers behind the constants are the first 64 primes, none left out |
| `Sha256Vectors.ConstantsAreRoots` | third-party/crypto/sha256.c:133-196 | every round constant is the first 32 fractional bits of the cube root of its prime |
| `Sha256Vectors.InitialAreRoots` | third-party/crypto/sha256.c:62-75 | every initial word is the first 32 fractional bits of the square root of its prime |
| `Sha256.Context.Update` | third-party/crypto/sha256.c:211-242 | the message absorbed so far grows by the data, whatever was buffered |
| `Sha256.Counters` | third-party/crypto/sha256.c:213-220 | the two 32-bit counters with the overflow test count the bytes |
| `Sha256.LengthField` | third-party/crypto/sha256.c:252-258 | the two words are the 64-bit bit count for messages below 2^61 bytes |
| `Sha256.Padded` | third-party/crypto/sha256.c:260-264 | the padding is that of section 5.1.1 of FIPS 180-4 |
| `Sha256.Context.Final` | third-party/crypto/sha256.c:247-274 | the digest of everything fed since the start |
| `Sha256.HashPieces` | third-party/crypto/sha256.c:211-274 | for every way of cutting a message the streamed digest equals the digest of the whole |
| `AesField.RsboxSbox` | third-party/aes/aes.c:79-114 | the inverse table undoes the table |
| `AesField.SboxRsbox` | third-party/aes/aes.c:79-114 | and the other way round |
| `AesVectors.SboxMeans` | third-party/aes/aes.c:79-114 | every entry is the affine map of section 5.1.1 of FIPS 197 applied to the inverse in GF(2^8), 0 for 0 |
| `AesField.MultiplyForms` | third-party/aes/aes.c:323-339 | the Multiply macro for the four constants it is used with |
| `AesField.FastMix` | third-party/aes/aes.c:305-317 | one doubling of a sum gives {02} a + {03} b + c + d |
| `AesField.UnmixMix` | third-party/aes/aes.c:305-363 | unmixing undoes mixing for every column |
| `AesField.MixUnmix` | third-party/aes/aes.c:305-363 | mixing undoes unmixing for every column |
| `AesCipher.LayerUndo` | third-party/aes/aes.c:242-405 | every layer, in both directions, is undone by its inverse |
| `AesCipher.MirrorUndoes` | third-party/aes/aes.c:410-459 | any list of layers is undone by the inverse layers in reverse |
| `AesCipher.InvCipherIsMirror` | third-party/aes/aes.c:410-459 | the layers of InvCipher are those of Cipher, inverted, in reverse |
| `AesCipher.InvCipherCipher` | third-party/aes/aes.c:410-459 | InvCipher undoes Cipher for every block and every round-key schedule |
| `AesCipher.CipherInvCipher` | third-party/aes/aes.c:410-459 | Cipher undoes InvCipher for every block and every round-key schedule |
| `Aes.SubBytes` | third-party/aes/aes.c:256-266 | the two nested loops substitute every byte of the block in place and nothing else |
| `Aes.AddRoundKey` | third-party/aes/aes.c:242-252 | the block is added to the round key in place |
| `Aes.RotateRows` | third-party/aes/aes.c:271-297 | the in-place rotations are ShiftRows |
| `Aes.RotateRowsBack` | third-party/aes/aes.c:380-405 | the in-place rotations are InvShiftRows |
| `Aes.MixAll` | third-party/aes/aes.c:305-363 | column loops equal the matrix products of sections 5.1.3 and 5.3.3 of FIPS 197 |
| `Aes.EncryptBlock` | third-party/aes/aes.c:410-433 | Cipher in place: one block changes, the rest of the buffer stays |
| `Aes.DecryptBlock` | third-party/aes/aes.c:436-459 | InvCipher in place |
| `AesModes.RconAgrees` | third-party/aes/aes.c:118-119 | the table holds the powers of x |
| `AesModes.KeyExpansion` | third-party/aes/aes.c:151-222 | the round keys of section 5.2 of FIPS 197 |
| `AesVectors.ScheduleVector` | third-party/aes/aes.c:151-222 | all eleven round keys of appendix A.1 of FIPS 197 |
| `AesVectors.CipherVector` | third-party/aes/aes.c:410-433 | the ciphertext of appendix B of FIPS 197 under the expanded key |
| `AesModes.CbcRoundTrip` | third-party/aes/aes.c:516-545 | CBC decryption undoes encryption for every schedule, IV and message |
| `AesModes.CbcRoundTripBack` | third-party/aes/aes.c:516-545 | and encryption undoes decryption |
| `AesModes.ChainUndo` | third-party/aes/aes.c:516-545 | a chained mode is undone whenever each link is, for any blocks |
| `AesModes.CbcChains` | third-party/aes/aes.c:516-530 | the stored IV continues a message cut between calls |
| `AesModes.BufferRoundTrip` | third-party/aes/aes.c:516-545 | encrypting and decrypting a buffer from the same IV restores every byte of it |
| `AesModes.EncryptBlocks` | third-party/aes/aes.c:516-530 | the loop whose IV pointer moves into the buffer is CBC encryption of the whole blocks |
| `AesModes.DecryptBlocks` | third-party/aes/aes.c:532-545 | the in-place loop is CBC decryption |
| `AesModes.Context.CbcEncryptBuffer` | third-party/aes/aes.c:516-530 | buffer and stored IV after the call |
| `AesModes.Context.CbcDecryptBuffer` | third-party/aes/aes.c:532-545 | buffer and stored IV after the call |
| `AesModes.IncrementValue` | third-party/aes/aes.c:586-598 | the carry loop adds one modulo 2^128 |
| `AesModes.NextCounter` | third-party/aes/aes.c:586-598 | the loop from the last byte is that increment |
| `AesModes.CtrTwice` | third-party/aes/aes.c:572-603 | CTR applied twice from the same IV is the identity at any length |
| `AesModes.XcryptBytes` | third-party/aes/aes.c:572-603 | the loop adds the key stream byte by byte and leaves the counter after the last started block |
| `AesModes.Context.CtrXcryptBuffer` | third-party/aes/aes.c:572-603 | buffer and counter after the call |
| `EnvList.InsertMap` | libs/env/env.c:88-161 | insertion is a map update and keeps keys distinct |
| `EnvList.DeleteMap` | libs/env/env.c:163-198 | deletion removes the key from the map and keeps keys distinct |
| `EnvList.SortCorrect` | libs/env/env.c:39-44 | sorting keeps the items and orders keys as strcmp does |
| `EnvList.AnySort` | libs/env/env.c:220 | any sorting algorithm gives this list |
| `EnvList.SortOfMap` | libs/env/env.c:220 | the map alone decides the sorted list |
| `EnvText.ParsePrint` | libs/env/env.c:523-539 | parsing undoes printing, whatever stands behind the terminator; values may contain the separator |
| `EnvText.OffEndIff` | libs/env/env.c:523-539 | the loop runs off the end of the area if and only if every record with a NUL has a separator after a legal name; an empty record or a bad one stops it |
| `EnvText.OffEndExamples` | libs/env/env.c:523-539 | an area that is read past its end, and one without terminator that is refused before |
| `EnvText.ParseJoin` | libs/env/env.c:541-574 | parsing undoes joining when no attribute has a comma |
| `EnvText.ParsedNoCommas` | libs/env/env.c:541-574 | no parsed attribute has a comma |
| `EnvState.SetFlagDerived` | libs/env/env.c:418-490 | after setting a flag the derived variable is the sorted list joined, or absent, whatever it was before |
| `EnvState.RunAgrees` | libs/env/env.c:341-490 | over every run of env_set and env_set_flag both lists agree with plain maps and the flag variable is absent exactly when there are no flags |
| `EnvState.TextOfMap` | libs/env/env.c:457-477 | the derived text depends on the flag map alone |
| `EnvState.RunGood` | libs/env/env.c:341-490 | with direct writes to the flag variable too, keys stay distinct and legal |
| `EnvIo.RoundTrip` | libs/env/env.c:492-624 | export then import into a fresh context gives back both maps if and only if no flag attribute contains a comma |
| `EnvIo.CommaExample` | libs/env/env.c:541-574 | a flag whose attribute has a comma and what it comes back as |
| `EnvIo.UnsettledExample` | libs/env/env.c:523-539 | a stored area whose import stops after the flag variable: the variable is set and the flag it names is not |
| `EnvIo.SettledRoundTrip` | libs/env/env.c:492-624 | the round trip for every state whose flag variable and flag list say the same |
| `EnvIo.ImportSettled` | libs/env/env.c:492-584 | what any storage area imports to |
| `EnvIo.ImportFault` | libs/env/env.c:492-584 | the import of any area into any state leaves it if and only if the checksum is right and every record with a NUL is a variable |
| `Env.JoinFlags` | libs/env/env.c:457-477 | the printing loop with its trailing comma gives the joined list |
| `Env.PrintAll` | libs/env/env.c:222-237 | the copy leaves the data area if and only if some prefix of the list prints to at least its size and less than four bytes more; otherwise the area holds the longest prefix the test lets through, terminated |
| `Env.OverrunExample` | libs/env/env.c:222-237 | a list of two variables that overruns eight bytes and neither ten nor five |
| `Env.Kept` | libs/env/env.c:227-232 | the longest prefix that prints to less than the size plus four |
| `Env.Context.Get` | libs/env/env.c:300-310 | the value in the map |
| `Env.Context.Set` | libs/env/env.c:341-374 | one step of the map model, error code, and the iterator after a deletion; an unset index when the key is absent |
| `Env.Context.SetFlag` | libs/env/env.c:418-490 | one step of the map model for flags, with error code and both iterators |
| `Env.Context.KeyNext` | libs/env/env.c:312-330 | the next key without a dot from the iterator on |
| `Env.Context.KeyFirst` | libs/env/env.c:332-339 | the first key without a dot |
| `Env.Context.DeleteAll` | tests/unittest-env.cc:663-672 | iterating while deleting each returned key visits every non-dot key exactly once, in order |
| `Env.Context.PrepareIo` | libs/env/env.c:200-242 | the fault and the contents of the data area as for the print loop; an environment that fits is there completely |
| `Env.Context.Export` | libs/env/env.c:586-624 | checksum and data of the stored image, for environments that fit, are cut short, or overrun the area |
| `Env.Context.Import` | libs/env/env.c:492-584 | state and status for every stored image; a fault if and only if the checksum is right and every record with a NUL is a variable |
| `EnvSlots.AttemptThenFallback` | sbl-s2/main.c:205-252 | an attempt marks itself, the next boot takes the safe volume and clears the mark |
| `EnvSlots.AttemptedOnce` | sbl-s2/main.c:205-252 | in every run of boots at most one boots a volume other than the safe one |
| `EnvSlots.BootStep` | sbl-s2/main.c:177-259 | the stored SBL variables make exactly one step of the protocol per boot |
| `EnvSlots.BootLaw` | sbl-s2/main.c:177-259 | what one boot makes of the variables in every case: an untried new volume is attempted and marked, a tried one gives way to the safe one, equal volumes stay, missing ones become a; nothing else changes but the version |
| `EnvSlots.VolumeLaw` | sbl-s2/main.c:205-259 | the volume a boot takes from storage, in the same four cases |
| `EnvSlots.AttemptSaves` | sbl-s2/main.c:234-249 | an attempt without keep_uboot_env leaves the U-Boot variables in the saved area and erases the U-Boot area |
| `EnvSlots.KeptAreas` | sbl-s2/main.c:213-249 | with keep_uboot_env, equal volumes or no volumes both U-Boot areas stay |
| `EnvSlots.TriedOnce` | sbl-s2/main.c:177-259 | over every history of boots and firmware in between, through storage |
| `EnvSlots.FallbackRestores` | sbl-s2/main.c:219-249 | without keep_uboot_env the U-Boot variables after the fallback are those before the attempt; flags and the derived variable too if and only if the stored environment was settled |
| `EnvSlots.VarsRoundTrip` | libs/env/env.c:492-660 | variables other than the derived one always survive export and import |
| `EnvSlots.Board.MoveArea` | libs/env/env.c:626-660 | the destination area holds an export of what the source area imports to; the others and the rest of the chip are as before |
| `EnvSlots.Board.PrepareEnv` | sbl-s2/main.c:177-203 | defaults, version and the export, on the chip; the U-Boot areas and the rest of the chip are as before |
| `EnvSlots.Board.SelectSlot` | sbl-s2/main.c:205-259 | the three decoded areas and the selected slot, B exactly when the volume after the choice is b; the rest of the chip is as before |
| `EnvSlots.Board.Boot` | sbl-s2/main.c:177-259 | prepare_env then select_slot on one flash chip is one boot of the protocol on the decoded areas, and no cell outside the three areas changes; slot B exactly when the stored variables ask for it: the new volume on a first attempt, the safe one after it or when they agree, slot A without volumes |
| `EnvFlash.DecodeEncode` | libs/env/env.c:238-239 | checksum word and data read back from the cells they were written to |
| `EnvFlash.OthersKept` | sbl-s2/main.c:219-249 | a change inside one area leaves the images of the other two |
| `EnvFlash.PlatformPlaced` | sbl-s2/platform-def.h:13-16 | the offsets of the platform give sector-aligned areas inside the chip that do not overlap, on chips of 16 and 32 MiB |
| `EnvFlash.Flash.Write` | libs/env/env-io-spi.c:41-81 | the area holds the image, the other two what they held, and no cell outside the areas changes |
| `EnvFlash.Flash.Clear` | libs/env/env-io-spi.c:67-86 | the area is erased, with the same frame |
| `EnvFlash.Flash.Read` | libs/env/env-io-spi.c:57-65 | the image the area holds |
| `SpiNor.ProgramInPage` | drivers/spi-nor/spi-nor.c:242-290 | a page program that stays in its page is a plain range even on a chip that wraps |
| `SpiNor.Write` | drivers/spi-nor/spi-nor.c:365-411 | page programs consecutive, none across a page boundary, covering exactly the range; the 32-bit size check passes a wrapping range |
| `SpiNor.WriteRange` | drivers/spi-nor/spi-nor.c:380-411 | the rest of the first page, whole pages and the last part: consecutive programs inside their pages that cover exactly the range |
| `SpiNor.Erase` | drivers/spi-nor/spi-nor.c:164-210 | whole sectors from the one that contains the address; count zero erases the chip |
| `SpiNor.AndOnBlank` | drivers/spi-nor/spi-nor.c:242-290 | programming blank cells stores the data |
| `SpiNor.Clear` | libs/env/env-io-spi.c:67-81 | an area that starts at a sector is blank up to the end of its last sector, the rest as before |
| `SpiNor.Store` | libs/env/env-io-spi.c:41-81 | clear, write and read-back leave the buffer at its range and everything outside the area unchanged |
| `SpiNor.ReadBack` | libs/env/env-io-spi.c:17-39 | compares every byte |
| `Iommu.EntryFields` | drivers/iommu/iommu.c:58-70 | the fields of an entry do not disturb each other |
| `Iommu.OrIsPlus` | drivers/iommu/iommu.c:58-70 | setting the fields of an entry with or is adding them |
| `Iommu.Translation` | drivers/iommu/iommu.c:105-134 | every 32-bit address leads to itself or into its live window |
| `Iommu.Identity` | drivers/iommu/iommu.c:105-134 | after initialisation the translation is the identity |
| `Iommu.MappedWindow` | drivers/iommu/iommu.c:149-169 | every address of a mapped window leads to the requested address plus the offset |
| `Iommu.SlotRange` | drivers/iommu/iommu.c:171-181 | the slot computed in 32 bits is in range exactly for window addresses |
| `Iommu.Device.DefaultTables` | drivers/iommu/iommu.c:105-134 | the tables hold the defaults, no window live |
| `Iommu.Device.FindFreeSlot` | drivers/iommu/iommu.c:136-147 | the first unmarked slot, or none when all are live |
| `Iommu.Device.Map` | drivers/iommu/iommu.c:289-301 | a fresh slot, the requested address reached through it, all other entries untouched; panic if and only if all slots are live |
| `Iommu.Device.Unmap` | drivers/iommu/iommu.c:303-309 | the window of the address goes back to identity; panic if and only if outside the windows |
| `Iommu.Device.MapSlot` | drivers/iommu/iommu.c:197-223 | error codes, and the one window |
| `Iommu.Device.MapRange` | drivers/iommu/iommu.c:311-326 | consecutive windows, from the one that contains the address, to consecutive addresses, or the first slot that failed with the earlier ones still mapped |
| `Queue.Queue.Push` | libs/queue/queue.c:11-34 | the contents grow at the end |
| `Queue.Queue.Pop` | libs/queue/queue.c:36-56 | the oldest element, or none |
| `Ipc.Server.Irq` | sbl-s3/risc0-ipc/server/api.c:31-68 | a well-formed frame is queued, a short or foreign one ignored, any other panics |
| `Ipc.FrameFields` | sbl-s3/risc0-ipc/server/protocol.h:179-215 | a request laid out field by field arrives with every field as itself, with and without a response address |
| `Ipc.Server.Respond` | sbl-s3/risc0-ipc/server/api.c:70-90 | parameters before the completion mark, both at the requested 64-bit address, windows as before; panic exactly for 32-bit addresses or no free slot |
| `Ipc.Server.Otp` | sbl-s3/risc0-ipc/server/ipc-otp.c:29-78 | parameters, stores and panic for every branch: foreign links and functions leave the parameters unset, sizes are cut to sixteen bits, a success stores exactly that prefix of the dump, every byte at its own 64-bit address; windows as before |
| `Ipc.Server.Command` | sbl-s3/risc0-ipc/server/api.c:92-122 | the panic condition, and otherwise exactly the stores of the service, then the parameters, then the completion mark; windows as before |
| `Ipc.Server.OutcomeOrdered` | sbl-s3/risc0-ipc/server/api.c:70-122 | every completion mark follows the parameters of its response |
| `Ipc.Server.Turn` | sbl-s3/risc0-ipc/server/api.c:149-161 | the oldest command is taken, once, and its stores are those of its outcome |
| `Ipc.Server.Run` | sbl-s3/risc0-ipc/server/api.c:31-161 | for every interleaving of interrupts and main-loop turns: panic if and only if some event is one, and otherwise commands taken, stores made and windows are those of the step function |
| `Ipc.Server.InOrder` | sbl-s3/risc0-ipc/server/api.c:31-161 | over every run nothing that arrives is lost or reordered, the main loop takes from the front, each command once, and stores are never taken back |

## Left out

- bigint free list, reference counts and allocation failure; Karatsuba, Montgomery, CRT and sliding-window code, which the configuration does not compile. Sizes are C shorts in the code; numbers here are bounded by `MAX_SIZE` where a size matters.
- rsa.c and the ASN.1 and X.509 parsers: a certificate is a record with issuer, subject, key, CA flag and fingerprint, and parsing is a function.
- Executor.Executor.Run: hash, signature check, key derivation and decryption are functions of the executor's `Crypto`; `Signature`, `Sha256` and `AesModes` treat them on their own. Flash is constant through a run, and the callbacks are functions of their arguments. `sblimg_check`, `sblimg_finish` and the jump into a payload are not part of this model.
- Blobs before version 17, unaligned blobs, and libfdt's overlay, read-write, resize, path, alias and property-lookup functions: the builder, the tag reader, the validator and the walkers carry the format.
- FdtBlob.OffsetPtrIsRange: blobs of version 17 and later.
- FdtBlob.FdtNextTag: blobs of version 17 and later.
- FdtCheck.CheckedHeader: headers of version 17 and later.
- FdtCheck.GetString: finished blobs of version 17 and later.
- FdtCheck.CheckFull: blobs of version 17 and later.
- FdtWriter.Writer.Property: names and values are shorter than 2^31 bytes, the range of the code's length parameter.
- EnvSlots.Board.PrepareEnv: environments fit their areas; what happens to others is stated for one export by `Env.Context.Export`.
- EnvSlots.Board.MoveArea: environments fit their areas.
- EnvSlots.Board.SelectSlot: environments fit their areas.
- EnvSlots.Board.Boot: environments fit their areas; a stored area without terminator is taken as read up to its end; storage errors and power loss inside a boot are not modelled. `env_copy`, `env_print` and RAM storage are not part of this model.
- Sha256.Context.Final: nothing is stated for messages of 2^61 bytes and more, whose length does not fit the 64-bit field.
- AES-192, AES-256 and the ECB wrappers; the cipher lemmas hold for schedules of any number of rounds, the key expansion is that of AES-128.
- SpiNor.Write: transfer errors and busy polling are not modelled; the mask by page size - 1 is written as a remainder, the same for powers of two. The 4 KiB parameter sectors of some chips are not modelled.
- Iommu.Device.MapRange: the range does not wrap around 2^32; cache maintenance and device registers are not modelled.
- Queue.Queue.Pop: the backward pointers of the list are written but nothing is stated about them, since nothing reads them.
- Ipc.Server.Run: services other than OTP are functions that store nothing; mailbox timeouts are not modelled. Interrupts arrive between main-loop turns, since a whole turn runs with interrupts disabled.
- CRC routines: the checksum is a function. Drivers for clocks, UART, GPIO, QSPI and watchdog, startup code, console and logging are not part of this model.
