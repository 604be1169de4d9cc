# tcr_structure chain bookkeeping, in Dafny

This project models the deterministic bookkeeping of four scripts of the
tcr_structure pipeline, which prepares TCR:pMHC complexes for AlphaFold3 and
for Rosetta's InterfaceAnalyzer, and proves properties of that model.

- **Segment-plan relabelling** (`scripts/04b_relabel_chains.py`, module
  `RelabelChains`). The record filter keeps only `ATOM`/`HETATM` lines.
  `extract_plan` reads `target_chainseq` (four `/`-separated sequences:
  MHC, peptide, TCRα, TCRβ) and computes prefix-sum offsets. From them it
  builds two index lists: A = MHC+peptide and B = TCRα+TCRβ. The walk in
  `relabel_pdb` counts residues in chain-then-residue order and sends each
  one to output chain A, to output chain B, or nowhere. The module also
  covers the relaxed-filename prefix extractor. The parsed structure is a
  sequence of chains of opaque residues, and the PDB parser is a function
  parameter.
- **Direct chain substitution** (`scripts/relabel.py`, module
  `DirectRelabel`). This is the per-file body of `relabel_pdbs` on a file's
  lines. Pass one collects the chain identifiers (column 22) of the atom
  lines. When they include every required identifier, pass two rewrites that
  column through the substitution table; otherwise the lines are copied.
- **HLA allele normalisation** (`scripts/01_generate_targets.py`, module
  `HlaAlleles`). `normalize_hla` strips the name, drops an `HLA-`/`HLA_`
  prefix, and accepts three shapes, rewriting each into `X*dd:dd`. Any other
  shape raises `ValueError`. The regular expressions are written out as
  predicates, including Python's `$`, which also matches before a final
  newline.
- **Chain classification and AlphaFold3 job assembly** (`scripts/setup.py`,
  module `Af3Jobs`). `classify_chain` labels a sequence by CDR3 substring
  matches, then by length bands. `make_af3_json` folds the FASTA records
  into five slots, where the first record of each type wins. It reports the
  empty slots, or lists the five sequences as chains A to E.

Shared pieces:
- `Wrappers`: Option and Result.
- `Text`: Python's `startswith`, `split`, substring `in` and ASCII `lower`
  on `seq<char>`.
- `PdbRecords`: the atom-record test and the chain column.

The code does not check that the plan's residue total matches the
structure. `extract_plan` raises only on a segment count other than four
(scripts/04b_relabel_chains.py:43-44), and `relabel_pdb` silently drops the
residues beyond the plan. `RelabelChains.Relabel` states exactly this
behaviour.

With the shipped substitution table, a remapped file is not always left with
only chains A and B. A chain the table does not mention, such as `F`, passes
through unchanged. `DirectRelabel.ShippedRemapChains` proves the exact set:
A, B, and the file's unmapped chains. The result is exactly {A, B} when every
chain of the file is a key of the table. The transform is idempotent either
way.

## Model

| member | source | states |
|---|---|---|
| Text.Split | scripts/04b_relabel_chains.py:42 | `str.split` on one character: one more part than separators, no part contains the separator, and joining the parts with the separator gives the input back |
| Text.ContainsIff | scripts/setup.py:105-107 | substring `in` holds exactly when the needle occurs at some position of the haystack |
| Text.LowerChar | scripts/setup.py:101 | an upper-case ASCII letter becomes the lower-case letter 32 code points above it; every other character is unchanged |
| Text.ToLower | scripts/setup.py:101 | `lower()` keeps the length and leaves no upper-case letter; only upper-case letters change, each to its lower-case partner |
| Text.ToLowerIdempotent | scripts/setup.py:101 | lowering an already lowered id changes nothing |
| PdbRecords.AtomLineIgnoresChainColumn | scripts/relabel.py:55 | whether a line is an `ATOM`/`HETATM` record does not depend on column 22 |
| RelabelChains.AtomLines | scripts/04b_relabel_chains.py:23-28 | the filter keeps no more lines than it reads, and only atom records |
| RelabelChains.AtomLinesSingle | scripts/04b_relabel_chains.py:26-27 | a single line is kept exactly when it starts with `ATOM` or `HETATM` |
| RelabelChains.AtomLinesAppend | scripts/04b_relabel_chains.py:25-27 | filtering distributes over concatenation, so lines are kept in their original order |
| RelabelChains.AtomLinesMembership | scripts/04b_relabel_chains.py:23-28 | a line is in the filter output if and only if it is an input line that is an atom record |
| RelabelChains.CleanPdbForParsing | scripts/04b_relabel_chains.py:19-28 | the loop's output is the filter of the input, and every output line is an atom record |
| RelabelChains.Range | scripts/04b_relabel_chains.py:56 | `list(range(lo, hi))` has `hi - lo` elements (none when `hi <= lo`), and element k is `lo + k` |
| RelabelChains.InRange | scripts/04b_relabel_chains.py:56-59 | membership in a range is the half-open interval test |
| RelabelChains.Offsets | scripts/04b_relabel_chains.py:48-51 | offset i is the sum of the first i segment lengths, starting from 0, with one offset per segment |
| RelabelChains.SegmentLengthsCover | scripts/04b_relabel_chains.py:42-46 | the segment lengths add up to every character of `target_chainseq` except the `/` separators |
| RelabelChains.ExtractPlan | scripts/04b_relabel_chains.py:31-61 | fails, reporting the segment count, exactly when there are not three `/`; otherwise A = [0, L0+L1) and B = [L0+L1, L0+L1+L2+L3) |
| RelabelChains.PlanPartition | scripts/04b_relabel_chains.py:56-59 | the two index lists have lengths L0+L1 and L2+L3, are disjoint, and together cover exactly [0, total) |
| RelabelChains.PlanExample | scripts/04b_relabel_chains.py:56-59 | for segments 3, 9, 15, 14 the walk's test sends flat indices 0 and 11 to A, 12 and 40 to B, and drops 41 |
| RelabelChains.RoutedIndices | scripts/04b_relabel_chains.py:83-89 | the flat indices with a given destination, strictly ascending, each below the residue count, none missing |
| RelabelChains.RoutedGathers | scripts/04b_relabel_chains.py:83-89 | the k-th residue of an output chain is the residue at the k-th flat index routed there, so output chains keep flat order |
| RelabelChains.NoResidueInBothChains | scripts/04b_relabel_chains.py:85-88 | no flat index is routed to both A and B |
| RelabelChains.DestinationUnderPlan | scripts/04b_relabel_chains.py:85-88 | under the plan's ranges, index i goes to A when i < L0+L1, to B when below the total, and is dropped otherwise |
| RelabelChains.RoutedToAUnderPlan | scripts/04b_relabel_chains.py:85-86 | under the plan, chain A is the first L0+L1 residues (fewer if the structure is shorter) |
| RelabelChains.RoutedToBUnderPlan | scripts/04b_relabel_chains.py:87-88 | under the plan, chain B is the next L2+L3 residues, clipped to the structure |
| RelabelChains.DroppedUnderPlan | scripts/04b_relabel_chains.py:85-89 | under the plan, exactly the residues with flat index at or beyond the total are dropped |
| RelabelChains.RelabelWalk | scripts/04b_relabel_chains.py:80-89 | the counter ends at the total residue count, and chains A and B are the residues routed to them, in flat order |
| RelabelChains.RelabelPdb | scripts/04b_relabel_chains.py:64-100 | the new model is chain A followed by chain B, and nothing else, built from the parse of the filtered lines |
| RelabelChains.Relabel | scripts/04b_relabel_chains.py:147-153 | fails only on a segment count other than four; otherwise A is the first L0+L1 residues and B the next L2+L3, and no size mismatch is reported |
| RelabelChains.ExtractPrefix | scripts/04b_relabel_chains.py:110-115 | the result is a prefix of the name that contains no `_run_` occurrence, and it ends at the first `_run_` or at the end of the name |
| RelabelChains.ExtractPrefixOfRunName | scripts/04b_relabel_chains.py:115 | a stem without underscores, followed by `_run_` and anything, gives back the stem |
| RelabelChains.ExtractPrefixExample | scripts/04b_relabel_chains.py:113 | `10839_run_model_2_ptm_relaxed` gives `10839` |
| DirectRelabel.ScanChains | scripts/relabel.py:51-56 | the collected set is exactly the column-22 characters of the atom lines |
| DirectRelabel.RemapLine | scripts/relabel.py:67-71 | length kept; only column 22 of an atom line changes, becoming the table's image (or itself when unmapped); other lines are unchanged |
| DirectRelabel.Lookup | scripts/relabel.py:69 | a mapped chain becomes its entry in the table; an unmapped chain keeps its identifier |
| DirectRelabel.Relabelled | scripts/relabel.py:59-76 | the output has as many lines as the input, lines other than atom records are untouched, and nothing changes unless every expected chain was found |
| DirectRelabel.RelabelFile | scripts/relabel.py:49-76 | remaps if and only if the found chains include every expected chain; then the output has the same number of lines in the same order, each put through the line remap on its own; otherwise the output is the input line for line |
| DirectRelabel.RemapKeepsAtomLines | scripts/relabel.py:67-70 | remapping never turns an atom line into another kind of line, or the reverse |
| DirectRelabel.ChainsAfterRemap | scripts/relabel.py:53-71 | after a remap, the chains found are the images of the chains found before |
| DirectRelabel.ShippedImage | scripts/relabel.py:14-24 | the shipped table sends a chain set that includes A–E to {A, B} plus the set's unmapped chains |
| DirectRelabel.ShippedRemapChains | scripts/relabel.py:59-71 | a remapped file has chains {A, B} plus its unmapped chains, so exactly {A, B} when all of its chains are keys |
| DirectRelabel.CopiedWithoutChainE | scripts/relabel.py:59-76 | with the shipped configuration, a file whose chains lie within A–D is copied unchanged |
| DirectRelabel.RelabelIdempotent | scripts/relabel.py:59 | a second run of the shipped configuration changes nothing |
| HlaAlleles.IsSpace | scripts/01_generate_targets.py:19 | the whitespace `strip()` removes includes space, tab, newline and carriage return, and never a digit, a locus letter, a lower-case letter, or `*`, `:`, `-`, `_`, `H` |
| HlaAlleles.TrimEnd | scripts/01_generate_targets.py:19 | the longest prefix that does not end in whitespace, with only whitespace removed |
| HlaAlleles.TrimStart | scripts/01_generate_targets.py:19 | the longest suffix that does not start with whitespace, with only whitespace removed |
| HlaAlleles.StripSurrounding | scripts/01_generate_targets.py:19 | `strip()` returns a slice of the input with whitespace, and only whitespace, cut from both ends; neither end of the result is whitespace (the contract of `Strip` itself) |
| HlaAlleles.StripUnchanged | scripts/01_generate_targets.py:19 | stripping a string without surrounding whitespace returns it unchanged |
| HlaAlleles.RemoveHlaPrefix | scripts/01_generate_targets.py:22 | a leading `HLA-` or `HLA_` is removed, once; a string without either prefix is returned as it is |
| HlaAlleles.MatchesColonForm | scripts/01_generate_targets.py:25 | the first pattern matches exactly a name in the target form, followed by the end or by a final newline |
| HlaAlleles.MatchesCompactForm | scripts/01_generate_targets.py:29 | the second pattern matches only five characters, or six ending in a newline, and its rewrite is in the target form |
| HlaAlleles.MatchesStarForm | scripts/01_generate_targets.py:34 | the third pattern matches only six characters, or seven ending in a newline, and its rewrite is in the target form |
| HlaAlleles.WhitespaceIgnored | scripts/01_generate_targets.py:19-22 | whitespace is stripped before the prefix is looked for or any pattern is tried: a name padded with whitespace on either side normalizes, or fails, exactly as the bare name does |
| HlaAlleles.MatchAllele | scripts/01_generate_targets.py:24-43 | succeeds exactly on the normalized shape, a locus and four digits, or a locus, `*` and four digits, the result being normalized; otherwise the error carries the prepared string |
| HlaAlleles.NormalizeHla | scripts/01_generate_targets.py:11-43 | every result has the shape `[ABCE]*dd:dd`; raises exactly on the other shapes, reporting the prepared string |
| HlaAlleles.NormalizePreparedNormalized | scripts/01_generate_targets.py:25-26 | a prepared string already in the target form is returned as it is |
| HlaAlleles.RemovePrefixOfNormalized | scripts/01_generate_targets.py:22 | `HLA-` or `HLA_` before a normalized name is exactly what gets removed |
| HlaAlleles.NormalizedUnchanged | scripts/01_generate_targets.py:19-26 | a normalized name, bare or behind `HLA-`/`HLA_`, comes back unchanged |
| HlaAlleles.PrefixIgnored | scripts/01_generate_targets.py:19-43 | a trimmed name behind `HLA-` or `HLA_` normalizes, or fails, exactly as the bare name does |
| HlaAlleles.NormalizeIdempotent | scripts/01_generate_targets.py:25-26 | normalizing a result gives the same result |
| HlaAlleles.CompactFormDigits | scripts/01_generate_targets.py:29-31 | a locus and four digits becomes `X*d1d2:d3d4`, with the digits in input order |
| HlaAlleles.StarFormDigits | scripts/01_generate_targets.py:34-36 | a locus, `*` and four digits becomes `X*d1d2:d3d4`, with the digits in input order |
| HlaAlleles.PreparedBare | scripts/01_generate_targets.py:19-22 | a name without surrounding whitespace that does not start with `H` is prepared to itself |
| HlaAlleles.PreparedWithoutSpace | scripts/01_generate_targets.py:19-22 | for a name without surrounding whitespace, only the prefix removal applies |
| HlaAlleles.DocumentedCompactExamples | scripts/01_generate_targets.py:14-16 | `HLA-A0201` gives `A*02:01` and `B0702` gives `B*07:02` |
| HlaAlleles.DocumentedStarExamples | scripts/01_generate_targets.py:15-17 | `HLA-B*0801` gives `B*08:01` and `HLA-A*02:01` gives `A*02:01` |
| HlaAlleles.RejectedLocusExamples | scripts/01_generate_targets.py:43 | a `D` locus and a lower-case locus raise, reporting the prepared string |
| HlaAlleles.RejectedLengthExamples | scripts/01_generate_targets.py:43 | three digits, and six digits, raise, reporting the prepared string |
| Af3Jobs.ClassifyChain | scripts/setup.py:91-123 | TCR alpha exactly on a CDR3α match (whatever the length); TCR beta exactly on a CDR3β match without one; otherwise peptide for 5–20, B2M for 90–120, MHC above 250, unknown elsewhere |
| Af3Jobs.ClassifyIgnoresIdCase | scripts/setup.py:101 | the case of the PDB id never changes the label, since the CDR3 map is looked up under the lower-cased id |
| Af3Jobs.FirstOfType | scripts/setup.py:149-152 | the index of the first record classified as the type, or none when no record is |
| Af3Jobs.SlotContentSnoc | scripts/setup.py:149-152 | one more record fills a slot only if that slot is empty and the record has its type; filled slots and unknown records change nothing |
| Af3Jobs.SlotContentStep | scripts/setup.py:149-152 | the same step, for the records the loop has seen |
| Af3Jobs.MissingSlots | scripts/setup.py:155 | a type is listed exactly when it is one of the slots and that slot is empty, and no more types are listed than there are slots; the listing order is fixed by the definition, which walks `order` from the front, and the contract does not state it |
| Af3Jobs.ExpectedSlotEmpty | scripts/setup.py:140-155 | after the fold, a slot is empty exactly when no record has its type |
| Af3Jobs.FoldStep | scripts/setup.py:149-152 | one pass of the loop keeps every slot equal to the first record of its type seen so far |
| Af3Jobs.Fill | scripts/setup.py:151-152 | a record fills its type's slot only when that slot is empty; a filled slot is never overwritten and every other slot is unchanged |
| Af3Jobs.SlotsAfterExpected | scripts/setup.py:140-152 | slots that hold the first record of each type are the fold's result |
| Af3Jobs.FoldSlots | scripts/setup.py:140-152 | each slot ends with the first record of its type, or empty |
| Af3Jobs.AssembleSequences | scripts/setup.py:161-170 | five entries in the order MHC, B2M, peptide, TCRα, TCRβ, with ids A to E |
| Af3Jobs.MakeAf3Job | scripts/setup.py:130-178 | no job exactly when some slot is empty, reporting the empty slots as listed by `MissingSlots`; otherwise a job named `<id>_tcr_pmhc` listing, as A to E, the first record of each type in slot order |

## Left out

- Bio.PDB is not part of this model. This covers how atom lines are parsed
  into chains and residues, which is the `parse` parameter of
  `RelabelChains.RelabelPdb`. It also covers how the new structure is
  written out, and `Chain.add` raising on a duplicate residue id. If the MHC
  and peptide chains number their residues from the same start, that
  rejection can abort a relabel in practice.
- `structure[0]` on a parse with no model raises in the source. The model
  has `parse` return the first model's chains directly.
- pandas loading of the targets table, the metadata CSV and the VDJdb rows
  is left out. `target_chainseq`, the CDR3 map and the HLA string are plain
  inputs.
- The FASTA download, `json.dump`, directory creation and every print or log
  line are left out. `MakeAf3Job` returns the job, or the missing slots,
  as a value.
- Command-line parsing, the existence checks and `sys.exit` in main are left
  out. So are directory globbing and the file reads and writes: a PDB file
  is its sequence of lines.
- `scripts/cif_to_pdb.py` is not part of this model: it only walks
  directories around a converter that is not shown.
- `str(raw)` on a non-string value (for example a missing CSV cell) is left
  out. `NormalizeHla` takes a string.
- `HlaAlleles.NormalizeHla`: `\d` is modelled as ASCII digits only, although
  Python's `re` also accepts other Unicode decimal digits.
- `HlaAlleles.MatchAllele`: the fourth test of the source repeats the
  second test's pattern and can only run after that pattern has failed. It
  never succeeds, so it has no branch.
- `Af3Jobs.MissingSlots`: the contract fixes which types are listed, not
  their order. The order comes from the definition, which walks the slot
  order from the front as the source's dictionary does.
- `Text.LowerChar` / `Text.ToLower`: only ASCII letters are lowered. Python lowers every
  cased Unicode character.
- `DirectRelabel.RelabelFile`: an atom line shorter than 22 characters makes
  the source raise `IndexError`. The model requires every atom line to have
  the column instead.
- `DirectRelabel.RemapLine`: the table's values are single characters. The
  source would splice a longer string into the line.
