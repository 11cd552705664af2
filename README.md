# HoneyGenesis metadata generator, modelled in Dafny

The HoneyGenesis repository ships a one-shot script, `generate.js`, that builds
the NFT metadata for the HoneyGenesis collection: for each token ordinal from 1
to the token count it produces a record named `HoneyGenesis #<ordinal>` with a
fixed description, a fixed IPFS image URI and a fixed list of three attributes,
and then writes record `k` (0-based) to the file `./metadata/<k+1>`. The entry
point runs this for 6000 tokens.

This project models that script:

- `Wrappers.dfy` — an `Option` datatype for the parsers below.
- `Decimal.dfy` — `NatToDecimal`, the base-10 rendering a template literal
  gives a non-negative integer, with its parser `ParseDecimal`; the two are
  proved inverse, so the rendering is injective.
- `Generate.dfy` — the `Attribute`, `Metadata` and `FileWrite` datatypes and
  the template constants; `GenerateMetadata`, the counting loop that appends
  one record per pass, proved against the specification function `Generated`;
  `SaveMetadataToFile`, the `forEach` that issues one write request per record,
  proved against the pure pairing `FileEntries`; `ApplyWrites`, the effect of
  completed writes on a directory's files; and `RunGenerator`, the entry point.

The specification functions behind the lemmas map onto the source as follows:
`RecordFor` is the object literal built on each pass (generate.js:7-18), `Name` the
template literal of its `name` (generate.js:8), `Generated` the list the loop
returns (generate.js:3-24), `FilePath` the path `${directory}/${index + 1}`
(generate.js:27, generate.js:35), `FileEntries` the pairing done by the `forEach`
(generate.js:33-35), and `ApplyWrites` the effect of the completed
`fs.writeFile` calls (generate.js:34-46).

Names and paths each have an inverse (`NameOrdinal`, `PathOrdinal`) that reads
the ordinal back, which is how the lemmas state that a record's name ordinal,
its position and its file ordinal agree.

## Model

| member | source | states |
|---|---|---|
| Decimal.NatToDecimal | generate.js:8 | the rendering of an ordinal is non-empty, all digits, and starts with `0` exactly when the number is 0 (no leading zeros) |
| Decimal.DecimalValueOfNatToDecimal | generate.js:8 | reading the digits of a rendering gives back the number rendered |
| Decimal.NatToDecimalOfDecimalValue | generate.js:8 | every canonical digit string is the rendering of the number it denotes |
| Decimal.NatToDecimalInjective | generate.js:8 | two ordinals have the same rendering if and only if they are equal |
| Decimal.ParseDecimalRoundTrip | generate.js:8 | parsing a rendering yields its number, and a text parses to `n` exactly when it is the rendering of `n` |
| Generate.NameOrdinalRoundTrip | generate.js:8 | the ordinal read back from `HoneyGenesis #<n>` is `n`, and a text reads back as `n` exactly when it is that name |
| Generate.NameInjective | generate.js:8 | two token names are equal if and only if their ordinals are |
| Generate.GeneratedShape | generate.js:6-8 | the list for `totalTokens` holds exactly `max(0, totalTokens)` records (none for 0 or less) and position `k` holds the record for ordinal `k + 1` |
| Generate.GeneratedExtends | generate.js:6-20 | the list for a smaller count is a prefix of the list for a larger one: later passes only append and never change earlier entries |
| Generate.GenerateMetadata | generate.js:3-24 | the loop returns the specified list: `max(0, totalTokens)` records, record `k` built for ordinal `k + 1`; its invariant is that after the pass for `i` the list holds exactly the records for ordinals 1..i |
| Generate.GeneratedRecord | generate.js:7-18 | a generated record's name carries ordinal `k + 1` (so ordinals ascend with position), its description and image are the fixed strings, and its attributes are exactly bear/"pot the bera", generation/"zero", nickname/"HoneyPotOG" in that order |
| Generate.GeneratedDifferOnlyInName | generate.js:7-18 | any two generated records agree on description, image and attributes, and two records share a name exactly when they are at the same position |
| Generate.PathOrdinalRoundTrip | generate.js:27-35 | the ordinal read back from `./metadata/<n>` is `n`, and a path reads back as `n` exactly when it is that path |
| Generate.FileEntriesOnePerRecord | generate.js:33-35 | the pairing yields one write per record, in list order, each carrying its record unchanged, to a path with ordinal `k + 1`; no two writes share a path |
| Generate.FileOrdinalMatchesName | generate.js:33-35 | for a generated list, each file's ordinal equals the ordinal in the name of the record written to it |
| Generate.SaveMetadataToFile | generate.js:26-47 | the write requests issued by the `forEach` are exactly the pairing of each record with its path, in list order |
| Generate.ApplyDistinctWrites | generate.js:33-46 | once writes with distinct paths have completed, each written path holds its content and every other file is unchanged |
| Generate.SavedFileHoldsRecord | generate.js:33-36 | after saving a list and all its writes completing, file `./metadata/<k+1>` holds record `k` |
| Generate.SavedFilesKeepOthers | generate.js:26-47 | saving a list of `n` records leaves every file other than `./metadata/1` to `./metadata/<n>` as it was, present or absent, with its content |
| Generate.RunGenerator | generate.js:50-54 | the entry point issues exactly the pairing of all 6000 generated records with their paths, in order: 6000 writes, the first record `HoneyGenesis #1` to `./metadata/1` and the last, `HoneyGenesis #6000`, to `./metadata/6000` |

## Left out

- The filesystem calls `existsSync` and `mkdirSync` (generate.js:29-31): directory creation is I/O; the model starts from a map of the files present.
- The asynchronous `fs.writeFile` completions and their callbacks (generate.js:34-46): they are neither awaited nor ordered. `SaveMetadataToFile` models the requests in issue order, `ApplyWrites` their effect once all have completed. Because the paths are distinct, `ApplyDistinctWrites` characterises the result without reference to order. A write that fails, and the process exiting before writes complete, are not modelled.
- `JSON.stringify(metadata, null, 2)` (generate.js:36): a library serialiser whose exact output is not in the repository. A file's content is modelled as the record value itself.
- Console logging (generate.js:39-43): output only.
- JavaScript number semantics of the loop counter: `totalTokens` is modelled as an integer, and non-integral or `NaN` counts are not modelled. `NatToDecimal` agrees with the template literal only for integers up to 2^53; above that a template literal prints the shortest digits that round-trip and pads with zeros, which the model does not reproduce.
- Very large counts: the model returns `max(0, totalTokens)` records for every integer. In the source, `metadataList.push` (generate.js:20) throws a `RangeError` once the array holds 2^32 - 1 elements, and past 2^53 `i++` (generate.js:6) no longer increases `i`, so the loop would never end. Neither the exception nor the non-termination is modelled; the entry point's count of 6000 is far below both bounds.
- ApplyWrites: the directory is a map from paths, exactly as the program spells them and with no normalisation (`metadata/1` and `./metadata/1` are different keys), to record values; files that hold anything other than a record, and the aliasing of different spellings of one file, are not modelled.
- `vip_script/VIPUtils.js` and `vip_script/index.js`: wallet and provider construction from the environment, a smart-contract call over RPC, the wait for 10 confirmations and the swallowed error path are network and foreign-library plumbing with no local logic. The script never checks that `users` and `amounts` have equal length, so the model does not claim that check either.
