# A verified model of Haider's credential, vault and gate components

This project models the parts of Haider whose correctness is not visible from any one
function: a binary token codec, two crash-safe secret vaults used by many callers at once,
the stores and monitors around them, the scanner that counts `unsafe` blocks, and a token
counter. Each is modelled in its own form (loops and objects where the code has them,
functions where it computes, a machine of atomic steps where threads interleave) and what it
promises is proved for all inputs, all runs and all interleavings.

| files | component |
|---|---|
| `OAuthWire`, `OAuthBundle`, `OAuthCodec`, `OAuthAcceptance` | the version-one OAuth bundle: wire grammar, meaning, the buffer-building writer and consuming reader, and which bundles are accepted |
| `VaultNames`, `Sealing`, `SealedVault` | file names and listings, HAV1 records over an ideal authenticated cipher, and the encrypted vault run by one caller |
| `VaultDisk`, `VaultSpec`, `VaultTraces`, `VaultMachine`, `VaultProof`, `VaultRuns`, `VaultAnswers` | a directory with a volatile and a durable side, the atomic vault and its traces, both file vaults as interleaved file operations, the refinement between them, and its consequences |
| `RefreshLease` | the process-local refresh lease |
| `SnapshotFile`, `AccountStore`, `AccountLaws`, `Resolver` | whole-file saves, the account descriptors, and credential resolution |
| `SourceRegistry`, `RegistryRuns`, `RegistryLaws` | the registry of external credential sources |
| `LogRotation`, `CompletionReceipt` | the native lifecycle log and the completion receipt |
| `RustLexer`, `TokenForms`, `CfgExpression`, `PathAttributes`, `UnsafeScanner`, `ScannerRefusals`, `ItemTrees`, `ItemLaws`, `ItemFaults`, `ItemExamples`, `SourceCount` | the scanner that counts `unsafe` blocks |
| `ProxyState`, `BytePairs` | the provider proxy's monitor and the merge counter |

`Bytes` holds byte strings, big-endian integers, UTF-8, the lexical order and linear search;
`Utf8Text` says what UTF-8 is by its encoder.

## Where the code and its promises differ

- `store.rs` says that a failed save leaves the file untouched. It does not when the parent
  directory's sync fails after the rename: `AccountStore.FailedSaveExample` is an instance,
  `AccountStore.FailedSave` the exact condition. `RegistryRuns.FailedCommit` is the same for
  the source registry. A new process then shows the snapshot that was reported as failed, and
  a crash can still take it away: `AccountStore.ReopenExample`. What does hold is that the
  file always loads (`AccountStore.EveryRunSafe`), and exactly when the durable file is the
  view is `AccountStore.DurableExactly`.
- The scanner keeps one pending flag for the whole file and looks for the end of an item
  with a rule of its own. Against a tree in which the extent of every item is given, it
  goes wrong in two ways, and `ItemLaws.LateOnlyMasks` and `ItemLaws.EarlyOnlyExposes`
  show that there is no third. The flag is up behind its item, and what follows is taken for
  test code: the group around the item closed first (`ItemExamples.MaskedAfterField`), or a
  comparison counted as an angle bracket (`ItemExamples.MaskedAfterLoop`);
  `ItemFaults.LateExact` and `ItemFaults.BracesLate` are the exact conditions. Or the flag
  comes down inside its item, and the rest is taken for production code: another attribute
  took it (`ItemExamples.ExposedBody`), or the wrong braces did (`ItemExamples.ExposedElse`,
  `ItemExamples.ExposedTrait`); `ItemFaults.EarlyExact`, `ItemFaults.BracesEarly` and
  `ItemFaults.OverrideExact` are the exact conditions.
- `FileVault::list` reports an alias twice, or one that was never stored, when an entry name
  has upper-case hexadecimal digits, and only then: `VaultNames.StrayExample` and
  `VaultNames.PlainListing`.
- The registry compares places by path components and makes identities from the bytes of the
  root, so a place that is removed and found again under another spelling has another
  identity: `RegistryRuns.IdentityMoves` and `RegistryRuns.PlaceIdentity`.
- `FileVault::resolve` answers that a credential is missing for every failure to inspect its
  file. `VaultRuns.FailedStatLies` shows the consequence, and `VaultMachine.StatWorks` is the
  assumption that linearizability needs.
- The proxy's ledger file equals its memory only while no write falls short:
  `ProxyState.LedgerExact` and `ProxyState.ShortWriteLags`.

## Assumptions

- The cipher is ideal (section 2 of RFC 5116): it opens exactly what it sealed, and nonces
  are fresh. The source digest is injective.
- A file system operation is atomic, except that a write may be torn at any byte. A crash
  keeps the bytes of synced files and, for each name changed since the directory was last
  synced, any one of the bindings it has had since then. Different names survive
  independently of each other.
- No two live calls of the plain vault have the same temporary name: it holds a process
  number and a counter.
- Clocks, randomness, allocation and failures are parameters, so every statement holds for
  all of their values.

## Model

| member | source | states |
|---|---|---|
| `OAuthWire.Read` | crates/haider-accounts/src/oauth.rs:226-354 | accepts only a message no longer than the cap, and then the whole input is the writing of the fields it returns: nothing is skipped or left over |
| `OAuthWire.ReadCore` | crates/haider-accounts/src/oauth.rs:231-258 | what the base fields consumed is exactly what writing them produces |
| `OAuthWire.ReadExtension` | crates/haider-accounts/src/oauth.rs:292-326 | what the identity and ID-token tail consumed is exactly what writing it produces |
| `OAuthBundle.WireBack` | crates/haider-accounts/src/oauth.rs:226-354 | reading is a left inverse of writing, for every message within the limits |
| `OAuthBundle.MarkersApart` | crates/haider-accounts/src/oauth.rs:16-20 | no extension opens with the marker of one that may precede it, so recognition by prefix is unambiguous |
| `OAuthBundle.RoundTrip` | crates/haider-accounts/src/oauth.rs:141-354 | for every bundle, whenever encoding succeeds, decoding the result gives the bundle back with every field equal, for all combinations of the four extensions |
| `OAuthBundle.EncodeInjective` | crates/haider-accounts/src/oauth.rs:141-223 | no two bundles have the same encoding |
| `OAuthBundle.Normalised` | crates/haider-accounts/src/oauth.rs:184-218 | the encoder emits exactly the message without an idle lifecycle extension and without an empty identity extension |
| `OAuthBundle.Rewritten` | crates/haider-accounts/src/oauth.rs:141-354 | re-encoding the bundle that a message means is possible and no longer than the message |
| `OAuthBundle.NormalForm` | crates/haider-accounts/src/oauth.rs:141-354 | for every accepted byte string: re-encoding succeeds, is never longer, decodes to the same bundle, and equals the input if and only if the input has no empty identity extension and no lifecycle extension with both times absent |
| `OAuthAcceptance.EncodeExact` | crates/haider-accounts/src/oauth.rs:141-223 | a bundle encodes if and only if every field is stated, none exceeds 65536 bytes and the whole is at most 262144; the error of each failing part, in order; and the exact size |
| `OAuthAcceptance.StatedIsValid` | crates/haider-accounts/src/oauth.rs:436-455 | field by field: what is not blank, `bearer` in either case, an access token, an expiry that is not 0, at most 128 scopes and none of them empty |
| `OAuthAcceptance.DecodeExact` | crates/haider-accounts/src/oauth.rs:226-354 | a written message decodes if and only if its fields are stated, and is invalid otherwise |
| `OAuthAcceptance.DecodeOnly` | crates/haider-accounts/src/oauth.rs:226-354 | and nothing but the writing of such a message decodes |
| `OAuthAcceptance.OrdinaryEncodes` | crates/haider-accounts/src/oauth.rs:141-181 | the exact bytes of an ordinary bearer bundle with any one-letter fields, encoded and decoded |
| `OAuthAcceptance.ExtendedEncodes` | crates/haider-accounts/src/oauth.rs:184-218 | the exact bytes of every extension |
| `Utf8Text.ValidExactly` | crates/haider-accounts/src/oauth.rs:564-566 | the accepted text is exactly the UTF-8 encodings of scalar values |
| `Utf8Text.BlankExactly` | crates/haider-accounts/src/oauth.rs:437-447 | a field is blank if and only if it encodes nothing but White_Space scalar values |
| `OAuthCodec.Writer.PushScopes` | crates/haider-accounts/src/oauth.rs:176-181 | the scope loop appends exactly the encoding of all scopes, or stops at the first oversized one |
| `OAuthCodec.Reader.ScopeList` | crates/haider-accounts/src/oauth.rs:253-256 | the scope loop reads what the recursive reading reads and leaves the same rest, errors included |
| `OAuthCodec.Reader.TakeBytes` | crates/haider-accounts/src/oauth.rs:505-512 | takes exactly the next bytes, refuses more than a field or than is left, and leaves the cursor alone when it refuses |
| `OAuthCodec.EncodeBundle` | crates/haider-accounts/src/oauth.rs:141-223 | the buffer-building encoder computes the specified encoding or the specified refusal |
| `OAuthCodec.DecodeBundle` | crates/haider-accounts/src/oauth.rs:226-354 | the consuming reader computes the specified decoding or the specified refusal |
| `CfgExpression.ParseExpression` | scripts/check-unsafe-counts.py:149-185 | the cursor-moving parser computes the recursive grammar reading, from any start |
| `CfgExpression.ParseOperandList` | scripts/check-unsafe-counts.py:155-170 | its operand loop reads what the recursive reading reads |
| `CfgExpression.ParseOfPrint` | scripts/check-unsafe-counts.py:149-185 | printing any well-formed expression and parsing it gives the expression back and leaves what follows |
| `CfgExpression.PrintOfParse` | scripts/check-unsafe-counts.py:149-185 | conversely, whatever the parser accepts with words left over was printed from some expression |
| `CfgExpression.AtomsAreOptions` | scripts/check-unsafe-counts.py:188-197 | the collected atoms are the options that the expression mentions |
| `CfgExpression.EvaluateMeaning` | scripts/check-unsafe-counts.py:200-211 | evaluation under a table agrees with the meaning under any configuration that the table describes on the collected atoms |
| `CfgExpression.ProductComplete` | scripts/check-unsafe-counts.py:214-226 | the enumeration contains every row of truth values |
| `CfgExpression.CanBeTrue` | scripts/check-unsafe-counts.py:214-226 | the loop answers true exactly when some row satisfies the expression |
| `CfgExpression.ProductDecides` | scripts/check-unsafe-counts.py:214-226 | hence it decides satisfiability with `test` off over all configurations, not only the listed rows |
| `CfgExpression.CorrectUnique` | scripts/check-unsafe-counts.py:229-240 | the words of an attribute leave no choice of verdict |
| `CfgExpression.AttributeIsTestOnly` | scripts/check-unsafe-counts.py:229-240 | for every list of words the verdict is exact: test-only if and only if the words print an expression that is false in every configuration without `test`; over sixteen free options is refused |
| `CfgExpression.OperatorVerdicts` | scripts/check-unsafe-counts.py:200-240 | what the operators mean for the verdict: `any` is test-only exactly when all its parts are, one such part makes `all` so, and `not` is so exactly when its part always holds without `test` |
| `CfgExpression.OptionVerdict` | scripts/check-unsafe-counts.py:176-185 | `test` is the one option that makes a leaf test-only |
| `CfgExpression.TestVerdict` | scripts/check-unsafe-counts.py:231-232 | the attribute `test` itself is test-only |
| `CfgExpression.VerdictLimit` | scripts/check-unsafe-counts.py:214-222 | a `cfg` attribute is beyond the scanner exactly when it mentions more than 16 options other than `test` |
| `RustLexer.DepthFollowsGrammar` | scripts/check-unsafe-counts.py:71-85 | counting comment depth finds the end that the grammar of nested comments gives |
| `RustLexer.CutsTile` | scripts/check-unsafe-counts.py:57-143 | for every source the tokens are disjoint slices in order, and the gaps between them are exactly white space and comments |
| `RustLexer.QuotedEndIsFirstClose` | scripts/check-unsafe-counts.py:25-34 | a quoted literal ends at its first unescaped quote, or at the end of the source |
| `RustLexer.ConsumeQuoted` | scripts/check-unsafe-counts.py:25-34 | the loop finds that end |
| `RustLexer.FindRawStringEnd` | scripts/check-unsafe-counts.py:37-54 | a raw string ends past the first terminator with its own number of hashes |
| `RustLexer.WordEnd` | scripts/check-unsafe-counts.py:134-139 | a word is the longest run of word characters |
| `RustLexer.RawBodyEnd` | scripts/check-unsafe-counts.py:52-54 | a raw body ends past its first terminator, or at the end of the source |
| `RustLexer.SkipBlockComment` | scripts/check-unsafe-counts.py:71-85 | the depth loop ends where the specification says |
| `RustLexer.ScanLexeme` | scripts/check-unsafe-counts.py:57-143 | one turn returns the specified lexeme and the number of newlines in it |
| `RustLexer.NewlinesBetween` | scripts/check-unsafe-counts.py:57-143 | newline counts add up over adjacent slices |
| `RustLexer.LexRust` | scripts/check-unsafe-counts.py:57-143 | terminates on every source; its tokens are the tiling, and each line is one plus the newlines before the token |
| `TokenForms.OneForm` | scripts/check-unsafe-counts.py:86-143 | every place in a source starts exactly one of seven forms: raw string, raw name, text, lone quote, character, name, sign |
| `TokenForms.TokenHasForm` | scripts/check-unsafe-counts.py:86-143 | the lexer's token ends where its form does: past the first terminator or unescaped quote, after the longest run of word characters, or after one character; a quote stands alone exactly when a word follows that no quote closes |
| `TokenForms.EndUnique` | scripts/check-unsafe-counts.py:86-143 | where a token starts determines where it ends |
| `TokenForms.CutsAreTheReading` | scripts/check-unsafe-counts.py:57-143 | for every source, the lexer's cut is the only way to read it as such tokens with white space and comments between them, for any character classes in which a slash is not white space |
| `UnsafeScanner.StepKeepsStack` | scripts/check-unsafe-counts.py:289-453 | every step keeps the test-scope stack strictly increasing and bounded by the brace depth |
| `UnsafeScanner.RunKeepsStack` | scripts/check-unsafe-counts.py:289-453 | so it holds throughout every run |
| `UnsafeScanner.GroupRestoresScopes` | scripts/check-unsafe-counts.py:394-399 | every balanced brace group gives the scope stack back as it found it |
| `UnsafeScanner.ScanCounts` | scripts/check-unsafe-counts.py:289-453 | the two counters together grow by exactly the visible unsafe blocks |
| `UnsafeScanner.Conservation` | scripts/check-unsafe-counts.py:289-453 | production plus test is the number of adjacent pairs outside attributes, at most the attribute-blind count; a test file counts nothing as production |
| `UnsafeScanner.VisibleAtMostAll` | scripts/check-unsafe-counts.py:490-531 | skipping attributes never adds a block |
| `UnsafeScanner.CountTokens` | scripts/check-unsafe-counts.py:289-453 | the loop computes the specified counts or rejects as specified |
| `UnsafeScanner.CountUnconventional` | scripts/check-unsafe-counts.py:490-531 | counts all pairs, and rejects if and only if some token is refused syntax |
| `ScannerRefusals.KindExact` | scripts/check-unsafe-counts.py:370-443 | the kind of every text: a text on a list has the kind of that list, any other is a name or a mark by its first letter |
| `ScannerRefusals.CountRefused` | scripts/check-unsafe-counts.py:308-384 | a source is refused if and only if a token or attribute of it is, whatever is counted and tracked: `include!`, a bad `path`, too many options, or an `unsafe` without a block where it may not stand |
| `ScannerRefusals.MacroEntered` | scripts/check-unsafe-counts.py:318-331 | inside a macro group one is open; another bracket opens none |
| `ScannerRefusals.NodesKeepMacros` | scripts/check-unsafe-counts.py:318-339 | scanning any well-formed forest leaves the open macro groups as it found them |
| `ScannerRefusals.BlindRefusal` | scripts/check-unsafe-counts.py:519-530 | what the attribute-blind count refuses at a token |
| `ScannerRefusals.BlindAccepts` | scripts/check-unsafe-counts.py:490-531 | without attributes, a source that the scanner accepts and that does not end in `unsafe` is accepted by the attribute-blind count too, with the same total |
| `ItemTrees.ScanNodes` | scripts/check-unsafe-counts.py:289-453 | from any state, scanning the printing of any well-formed forest of items adds what the one-flag reading of the tree says and restores place and stack |
| `ItemTrees.ScanIsFlow` | scripts/check-unsafe-counts.py:289-453 | on every well-formed forest that is accepted, or holds nothing to refuse, the flat scan with its flag, stack and depths computes a recursive reading of the tree |
| `ItemLaws.FlowTotal` | scripts/check-unsafe-counts.py:289-453 | that reading sees every unsafe block of the tree once, and nothing but test code where it is in test code |
| `ItemLaws.ReadTotal` | scripts/check-unsafe-counts.py:289-453 | so does the item tree's own reading |
| `ItemLaws.Tracks` | scripts/check-unsafe-counts.py:398-443 | a flag that the scanner's end-of-item rule leaves up at the item's own level is the scanner's flag, whatever happens inside groups |
| `ItemLaws.FlagExact` | scripts/check-unsafe-counts.py:385-443 | where every item inside has its flag down by its end, the rule gives the scanner's flag exactly |
| `ItemLaws.HoldsCovers` | scripts/check-unsafe-counts.py:370-376 | an item whose flag is up until its last block shows the scanner no production code |
| `ItemLaws.LateOnlyMasks` | scripts/check-unsafe-counts.py:385-397 | where no flag comes down inside its item, the scanner never reports more production code than the item tree has, whatever flag it arrives with |
| `ItemLaws.EarlyOnlyExposes` | scripts/check-unsafe-counts.py:363-367 | where every flag is down by the end of its item, the scanner never reports less production code than the item tree has |
| `ItemLaws.ClassificationExact` | scripts/check-unsafe-counts.py:289-453 | where both hold, the production and test counts are those of the item tree, in which the extent of each item is given and test code is what lies in an item under a test-only attribute |
| `ItemFaults.LateExact` | scripts/check-unsafe-counts.py:385-397 | for any test item at the end of any nest of groups, with an unsafe block and anything else behind it, anywhere in production code that is otherwise in order: the whole is counted right if and only if the end-of-item rule has the flag down by the end of the item |
| `ItemFaults.EarlyExact` | scripts/check-unsafe-counts.py:385-443 | for any test item whose second part holds production code, anywhere in production code that is otherwise in order: the whole is counted right if and only if the rule has the flag up at the end of the first part |
| `ItemFaults.BracesLate` | scripts/check-unsafe-counts.py:425-432 | a test item that ends in braces, with an unsafe block behind it: right if and only if no angle bracket counts as open before the braces |
| `ItemFaults.BracesEarly` | scripts/check-unsafe-counts.py:385-393 | a test item that goes on behind braces, to production code: right if and only if an angle bracket counts as open before the braces |
| `ItemFaults.OverrideExact` | scripts/check-unsafe-counts.py:363-367 | a test item with a group that is not its braces, and production code behind it with any words and groups between: right if and only if the group holds no test item, though the group releases the flag of each |
| `ItemExamples.MaskedAfterLoop` | scripts/check-unsafe-counts.py:425-428 | `#[cfg(test)] while a < b { } unsafe { }` is reported as a test block and is a production block |
| `ItemExamples.MaskedAfterField` | scripts/check-unsafe-counts.py:394-397 | `{ #[cfg(test)] x } unsafe { }` likewise |
| `ItemExamples.ExposedElse` | scripts/check-unsafe-counts.py:385-393 | `#[cfg(test)] static A: u8 = if C { } else { unsafe { } };` is reported as a production block and is a test block |
| `ItemExamples.ExposedBody` | scripts/check-unsafe-counts.py:363-367 | `#[cfg(test)] fn f(#[cfg(test)] x: u8, y: u8) { unsafe { } }` likewise |
| `ItemExamples.ExposedTrait` | scripts/check-unsafe-counts.py:429-432 | `#[cfg(test)] trait T<F: Fn() -> u8, const N: usize = { 3 }> { fn g() { unsafe { } } }` likewise |
| `ItemExamples.CfgTestIsTestOnly` | scripts/check-unsafe-counts.py:229-240 | `cfg(test)` is test-only |
| `ItemExamples.RightAfterUse` | scripts/check-unsafe-counts.py:433-443 | `#[cfg(test)] use a; unsafe { }` is reported as the production block it is |
| `ItemExamples.RightInAndAfter` | scripts/check-unsafe-counts.py:385-393 | `#[cfg(test)] fn f() { unsafe { } } unsafe { }` is one test and one production block |
| `ItemExamples.RightAfterElement` | scripts/check-unsafe-counts.py:437-443 | `[#[cfg(test)] a, unsafe { }]` is a production block |
| `PathAttributes.RawTextBack` | scripts/check-unsafe-counts.py:243-261 | every raw string literal is read back as its text |
| `PathAttributes.RawTextOnly` | scripts/check-unsafe-counts.py:243-261 | conversely, a raw token that is read as a text is that text's raw string, or one cut short before its text, which is read as the empty text |
| `PathAttributes.CutTextBack` | scripts/check-unsafe-counts.py:243-261 | every token cut short so is read as the empty text |
| `PathAttributes.RawPathAccepted` | scripts/check-unsafe-counts.py:264-286 | a `path` attribute with a raw target passes if and only if the target ends in `.rs` and is acceptable |
| `PathAttributes.OddPathRefused` | scripts/check-unsafe-counts.py:264-286 | an accepted `path` attribute has exactly the shape `path = literal`, and its text ends in `.rs` and is acceptable |
| `SourceCount.BlocksAreInSource` | scripts/check-unsafe-counts.py:57-143 | every pair that is counted is the word and the brace as tokens of the text, with only white space and comments between them |
| `SourceCount.CountFile` | scripts/check-unsafe-counts.py:289-453 | from text to counts: the lexer composed with the scanner, never above the attribute-blind count of the same text |
| `SourceCount.CountUnconventionalFile` | scripts/check-unsafe-counts.py:490-531 | from text to the attribute-blind count, with the exact refusals |
| `VaultNames.UnhexHex` | crates/haider-accounts/src/file_vault.rs:54-57 | decoding the hexadecimal form of any bytes gives the bytes back |
| `VaultNames.HexUnhex` | crates/haider-accounts/src/encrypted_file_vault.rs:226-232 | re-encoding what was decoded gives the same text if and only if it had no upper-case digit |
| `VaultNames.EntryNameInjective` | crates/haider-accounts/src/encrypted_file_vault.rs:78-80 | no two aliases share an entry file name |
| `VaultNames.SealedTempInjective` | crates/haider-accounts/src/encrypted_file_vault.rs:144 | no two nonces share a temporary name |
| `VaultNames.OthersHaveNoStem` | crates/haider-accounts/src/file_vault.rs:14-17 | no temporary or lock name carries the entry suffix |
| `VaultNames.EntryOrder` | crates/haider-accounts/src/file_vault.rs:14-17 | file names compare exactly as their aliases do |
| `VaultNames.SortedUnique` | crates/haider-accounts/src/file_vault.rs:180 | a strictly sorted list is determined by its members |
| `VaultNames.SortSorted` | crates/haider-accounts/src/file_vault.rs:180 | the listing is sorted |
| `VaultNames.PlainListing` | crates/haider-accounts/src/file_vault.rs:156-182 | the plain listing is strictly sorted and holds exactly the stored aliases if and only if no entry name has upper-case digits |
| `VaultNames.StrayExample` | crates/haider-accounts/src/file_vault.rs:156-182 | `4A.vault` alone lists the alias `J`, which has no entry, and beside `4a.vault` it lists `J` twice |
| `VaultNames.StrayIsUpperCase` | crates/haider-accounts/src/file_vault.rs:165-178 | such a name is a stray exactly when a digit is upper-case |
| `VaultNames.ListPlain` | crates/haider-accounts/src/file_vault.rs:156-182 | the loop computes that listing |
| `VaultNames.ListSealed` | crates/haider-accounts/src/encrypted_file_vault.rs:215-236 | succeeds if and only if every entry name is canonical and every entry file opens, and then lists exactly the stored aliases in strict order |
| `Sealing.AadInjective` | crates/haider-accounts/src/encrypted_file_vault.rs:82-90 | the associated data determines the alias |
| `Sealing.AadLayout` | crates/haider-accounts/src/encrypted_file_vault.rs:82-90 | the associated data is `HAV1`, the length of the alias and the alias; only an alias of 4294967296 bytes or more has none |
| `Sealing.UnsealRecord` | crates/haider-accounts/src/encrypted_file_vault.rs:173-201 | every sealed secret of at most 524288 bytes is read back exactly |
| `Sealing.UnsealOnlySealed` | crates/haider-accounts/src/encrypted_file_vault.rs:173-201 | nothing is released but a secret sealed under this key for this alias in exactly these bytes |
| `Sealing.SealBinds` | crates/haider-accounts/src/encrypted_file_vault.rs:82-90 | a record opened under another key, or as another alias, is refused |
| `Sealing.UnsealMonotone` | crates/haider-accounts/src/encrypted_file_vault.rs:173-201 | sealing more never changes what an earlier record reads as |
| `SealedVault.EncryptedFileVault.Resolve` | crates/haider-accounts/src/encrypted_file_vault.rs:173-201 | returns exactly what the directory means (missing, corrupt, or the sealed secret), and an error when the file cannot be read |
| `SealedVault.EncryptedFileVault.WriteEntry` | crates/haider-accounts/src/encrypted_file_vault.rs:146-170 | stages, syncs, renames and syncs; after any failure before the last sync every entry is as it was |
| `SealedVault.EncryptedFileVault.Put` | crates/haider-accounts/src/encrypted_file_vault.rs:118-171 | succeeds if and only if the size, existing entry, alias and temporary name are acceptable and nothing fails; then the alias reads as the secret and every other entry is untouched; a refused put changes nothing in the directory |
| `SealedVault.EncryptedFileVault.Delete` | crates/haider-accounts/src/encrypted_file_vault.rs:203-213 | removes the entry or nothing; an entry that does not authenticate changes nothing in the directory |
| `SealedVault.KeptReadsTheSame` | crates/haider-accounts/src/encrypted_file_vault.rs:118-171 | an entry whose bytes are kept still reads as the same secret |
| `VaultSpec.EffectIsApply` | crates/haider-accounts/src/vault.rs:179-213 | taking effect on the recorded histories is the operation on a plain map, with the map's reply |
| `VaultSpec.StepKeepsHistory` | crates/haider-accounts/src/vault.rs:179-213 | only a crash removes values, and never durable ones |
| `VaultSpec.DurableForever` | crates/haider-accounts/src/vault.rs:179-213 | a durable value stays in the history through every later step and crash |
| `VaultSpec.MemoryVault.PutSecret` | crates/haider-accounts/src/vault.rs:180-188 | the in-memory vault is the map operation |
| `VaultSpec.MemoryVault.ResolveSecret` | crates/haider-accounts/src/vault.rs:190-199 | answers what the map holds |
| `VaultSpec.MemoryVault.DeleteSecret` | crates/haider-accounts/src/vault.rs:201-204 | removes the alias; removing an absent one succeeds |
| `VaultSpec.MemoryVault.List` | crates/haider-accounts/src/vault.rs:206-212 | the keys in strict lexical order |
| `VaultSpec.ListingsAgree` | crates/haider-accounts/src/vault.rs:206-212 | a directory whose entries are the map's keys is listed exactly as the map is |
| `VaultProof.EveryStep` | crates/haider-accounts/src/encrypted_file_vault.rs:118-213 | every file operation of any caller, call, return or crash keeps the invariant and is a step of the atomic vault with the same label |
| `VaultProof.RenameStep` | crates/haider-accounts/src/encrypted_file_vault.rs:163-164 | a put takes effect at its rename |
| `VaultProof.OpenStep` | crates/haider-accounts/src/encrypted_file_vault.rs:92-106 | a resolve takes effect at its open |
| `VaultProof.UnlinkStep` | crates/haider-accounts/src/encrypted_file_vault.rs:209-212 | a delete takes effect at its unlink |
| `VaultProof.SyncStep` | crates/haider-accounts/src/encrypted_file_vault.rs:112-114 | a directory sync makes every effect so far durable |
| `VaultProof.CreateStep` | crates/haider-accounts/src/file_vault.rs:93-109 | exclusive creation of a temporary file disturbs no other writer |
| `VaultProof.UndoStep` | crates/haider-accounts/src/file_vault.rs:114-118 | removing a staged file disturbs no other writer |
| `VaultProof.CrashStep` | crates/haider-accounts/src/file_vault.rs:86-92 | a crash after any step leaves every alias at a whole value not older than its durable one |
| `VaultProof.Linearizable` | crates/haider-accounts/src/encrypted_file_vault.rs:118-213 | every interleaving of put, resolve and delete by any number of callers, with crashes anywhere, is a run of the atomic vault |
| `VaultRuns.Starts` | crates/haider-accounts/src/encrypted_file_vault.rs:38-64 | any directory of whole, durable entries is a starting point |
| `VaultRuns.NeverTorn` | crates/haider-accounts/src/file_vault.rs:86-92 | in every state of every run, and after every crash, each alias is absent or reads as one whole value, the current one |
| `VaultTraces.TakenAfterCall` | crates/haider-accounts/src/vault.rs:179-213 | every call of the atomic vault takes effect between its call and its answer |
| `VaultTraces.ResolveAlone` | crates/haider-accounts/src/vault.rs:190-199 | a resolve that meets no writer answers with the value that was current when it was called |
| `VaultRuns.AcknowledgedSurvives` | crates/haider-accounts/src/encrypted_file_vault.rs:118-213 | a put or delete that was answered with success keeps, through every later step and crash, the place in the history at which it took effect, after it was called; the history up to there never changes and no crash goes behind it |
| `VaultRuns.LoneWriteStays` | crates/haider-accounts/src/encrypted_file_vault.rs:118-213 | with no other writer of the alias in flight or called since, the file reads as an acknowledged put or delete left it at every later time, crashes included |
| `VaultRuns.FoundWasPut` | crates/haider-accounts/src/encrypted_file_vault.rs:173-201 | every secret that a resolve returns was put for that alias by an earlier call, or was there at the start |
| `VaultRuns.NoSpuriousFailure` | crates/haider-accounts/src/encrypted_file_vault.rs:118-213 | while file operations work, a call gives up if and only if its temporary name is taken, its alias is too long to seal, or its plain entry vanished between stat and open or is oversized, whatever the other callers do |
| `VaultAnswers.AnsweredRight` | crates/haider-accounts/src/encrypted_file_vault.rs:118-213 | over every run, for both vaults: a call that meets no failing file operation and has none of those reasons fails if and only if it is a put of more than 524288 bytes; otherwise it is answered stored, removed, or found or absent |
| `VaultAnswers.LeavesNoLitter` | crates/haider-accounts/src/file_vault.rs:114-118 | over every run without a crash in which removals of temporary files work, and however calls fail, a temporary file that is there with no call in progress was there at the start |
| `VaultRuns.TurnProgresses` | crates/haider-accounts/src/encrypted_file_vault.rs:118-213 | every turn of a call brings its answer nearer, whatever the other callers do |
| `VaultRuns.NeverAbsent` | crates/haider-accounts/src/vault.rs:190-199 | the atomic vault has no run, of any length, in which a lone resolve of a present alias answers absent |
| `VaultRuns.FailedStatLies` | crates/haider-accounts/src/file_vault.rs:123 | from any directory that holds the alias, a plain resolve that cannot inspect the file answers that it is absent: a run that the atomic vault does not have |
| `VaultRuns.ListingIsCurrent` | crates/haider-accounts/src/file_vault.rs:156-182 | after any run or crash the listing is exactly the aliases with a current value, and leftovers are not listed |
| `VaultRuns.SealedListing` | crates/haider-accounts/src/encrypted_file_vault.rs:215-236 | after any run the sealed vault does not refuse to list a directory at rest whose entry files open, and lists what the plain one lists |
| `RefreshLease.StepInv` | crates/haider-accounts/src/vault.rs:126-153 | every atomic operation keeps counts, registry, mutex and flags consistent |
| `RefreshLease.MutualExclusion` | crates/haider-accounts/src/vault.rs:126-153 | in every interleaving at most one lease per alias is held |
| `RefreshLease.OneGate` | crates/haider-accounts/src/vault.rs:130-144 | at most one gate per alias is alive, and once looked up it is the registered one |
| `RefreshLease.RefusedIffHeld` | crates/haider-accounts/src/vault.rs:145-150 | an attempt is refused if and only if another thread holds the lease on that alias at that moment |
| `SnapshotFile.Save` | crates/haider-accounts/src/store.rs:78-117 | the target changes only by the rename, to the whole new snapshot, and a success leaves nothing else for a crash to find |
| `SnapshotFile.CrashLoads` | crates/haider-accounts/src/store.rs:109-116 | whatever a crash leaves can be loaded |
| `AccountStore.CountOne` | crates/haider-accounts/src/store.rs:475-488 | counting active accounts to one is having exactly one |
| `AccountStore.ValidateSnapshot` | crates/haider-accounts/src/store.rs:454-491 | accepts a snapshot if and only if descriptors are named, aliases distinct, and each provider has exactly one active account |
| `AccountStore.ProposalValid` | crates/haider-accounts/src/store.rs:186-420 | every candidate that the mutations build from a valid view is valid, so revalidation never rejects one |
| `AccountStore.RemoveKeeps` | crates/haider-accounts/src/store.rs:383-403 | removing any account leaves exactly one active account for each remaining provider |
| `AccountStore.AccountStore.Load` | crates/haider-accounts/src/store.rs:176-180 | opens exactly the valid snapshots, as a store that every mutation accepts |
| `AccountStore.AccountStore.Commit` | crates/haider-accounts/src/store.rs:444-449 | rejects exactly invalid candidates; otherwise the view changes if and only if the save succeeds |
| `AccountStore.AccountStore.Insert` | crates/haider-accounts/src/store.rs:186-240 | add: the specified candidate, refusal or failed save |
| `AccountStore.AccountStore.Update` | crates/haider-accounts/src/store.rs:315-361 | replace: likewise, with the fields that `AccountLaws.NamedAfter` gives |
| `AccountStore.AccountStore.Activate` | crates/haider-accounts/src/store.rs:364-379 | select: likewise |
| `AccountStore.AccountStore.Delete` | crates/haider-accounts/src/store.rs:383-403 | remove: likewise, with the first remaining account as successor |
| `AccountStore.AccountStore.UpdateStatus` | crates/haider-accounts/src/store.rs:408-420 | set_status: likewise |
| `AccountStore.AccountStore.UpdateLabel` | crates/haider-accounts/src/store.rs:249-265 | set_label: likewise, though it saves without revalidating |
| `AccountStore.AccountStore.UpdateIdentity` | crates/haider-accounts/src/store.rs:292-308 | set_identity: likewise |
| `AccountStore.AccountStore.Backfill` | crates/haider-accounts/src/store.rs:270-288 | backfill_identity: only where there is none |
| `AccountStore.EveryRunSafe` | crates/haider-accounts/src/store.rs:174-491 | over every run of all mutations with arbitrarily failing saves, crashes and new processes: distinct aliases and one active account per provider, in the view and in everything that a crash can leave |
| `AccountStore.AlwaysLoads` | crates/haider-accounts/src/store.rs:176-180 | so a new process, or the machine after a crash, never finds a file that it rejects |
| `AccountStore.DurableAfter` | crates/haider-accounts/src/store.rs:109-117 | a successful save or a crash makes the durable file the view, opening the file does exactly when its durable and visible snapshots agree, and nothing else matters |
| `AccountStore.DurableExactly` | crates/haider-accounts/src/store.rs:109-117 | over every run, the durable file is the view if and only if no opening of an unsynced snapshot is still unsettled |
| `AccountStore.ReopenExample` | crates/haider-accounts/src/store.rs:109-117 | for all different snapshots, a save that fails at the parent sync and then a new process leave a view that a crash can take away |
| `AccountStore.FailedSaveExample` | crates/haider-accounts/src/store.rs:3-8 | so the promise that a failed save leaves the file untouched is broken by adding a first account with a failing directory sync |
| `AccountLaws.AliasOrder` | crates/haider-accounts/src/store.rs:422-426 | insertion order: additions last, removals close the gap, nothing else moves |
| `AccountLaws.CoordinatesFixed` | crates/haider-accounts/src/store.rs:310-361 | no mutation changes an account's provider, authentication method, base URL or creation time, nor anything but the active mark of an account it does not name |
| `AccountLaws.ActiveAfter` | crates/haider-accounts/src/store.rs:182-403 | the active account changes only by selecting, by adding an active one, or by removing it, and then to the first that remains |
| `AccountLaws.RefusedExactly` | crates/haider-accounts/src/store.rs:186-403 | for every operation: exactly which requests are refused and with which error, which is found unneeded, and which are accepted |
| `AccountLaws.NamedAfter` | crates/haider-accounts/src/store.rs:186-403 | every field of the named account after an accepted request, in terms of the request and the account before, and the answer; a removed account is returned and gone |
| `AccountLaws.StoredAndAnswered` | crates/haider-accounts/src/store.rs:186-403 | a call that succeeds has put that account in the view and the view durably on disk |
| `AccountLaws.ValidExactly` | crates/haider-accounts/src/store.rs:454-511 | what validation asks: names that are not empty, no alias twice, exactly one active account per provider |
| `Resolver.TheActive` | crates/haider-accounts/src/store.rs:436-442 | in a valid store the active account of a provider exists exactly when it has accounts, and is unique |
| `Resolver.SingleHop` | crates/haider-accounts/src/resolver.rs:107-208 | exactly what is chosen: the active account if usable now, else the single account the policy names, if of the same provider and usable at the second reading; the policy is called at most once, with the right reason, and never for a usable or revoked account |
| `Resolver.AlternateChooses` | crates/haider-accounts/src/resolver.rs:165-208 | one hop for any trigger: an unusable, foreign or unknown target is an error |
| `Resolver.NothingToResolve` | crates/haider-accounts/src/resolver.rs:107-124 | without a clock or an active account the policy is not asked |
| `Resolver.LimitsOnlyStops` | crates/haider-accounts/src/resolver.rs:59-65 | a policy that only knows rate limits never rotates away from an expired account |
| `Resolver.FailsAs` | crates/haider-accounts/src/resolver.rs:107-208 | which error each failing resolution gives, and that only a waiting policy makes it retryable |
| `SourceRegistry.SanitizedClean` | crates/haider-accounts/src/source_registry.rs:460-469 | a label is 1 to 80 characters, without control characters, trimmed, and unchanged by sanitizing again |
| `SourceRegistry.LabelExact` | crates/haider-accounts/src/source_registry.rs:460-470 | a label is the first eighty printable characters of the text without the white space around them, and there is none exactly when they are all white |
| `SourceRegistry.ComponentsJoin` | crates/haider-accounts/src/source_registry.rs:241-244 | a slash parts the names of a path |
| `SourceRegistry.ComponentsOne` | crates/haider-accounts/src/source_registry.rs:241-244 | and what has no slash is one name, or none if it is empty or a dot |
| `SourceRegistry.SourceIdInjective` | crates/haider-accounts/src/source_registry.rs:451-458 | with an injective digest, the identity determines kind and root |
| `SourceRegistry.ValidateRecords` | crates/haider-accounts/src/source_registry.rs:380-410 | accepts exactly at most 64 proper records without a clash of identity, place or alias |
| `SourceRegistry.ValidExactly` | crates/haider-accounts/src/source_registry.rs:380-410 | the conditions on records, one by one |
| `SourceRegistry.SortOrdered` | crates/haider-accounts/src/source_registry.rs:303 | the records are sorted by identity |
| `SourceRegistry.SortNoClash` | crates/haider-accounts/src/source_registry.rs:303 | sorting introduces no clash |
| `SourceRegistry.ProposalValid` | crates/haider-accounts/src/source_registry.rs:221-344 | revalidation rejects nothing but an update whose own fields are bad |
| `RegistryRuns.CredentialSourceRegistry.Load` | crates/haider-accounts/src/source_registry.rs:189-207 | opens exactly the valid records, as a registry that every operation accepts |
| `RegistryRuns.CredentialSourceRegistry.Commit` | crates/haider-accounts/src/source_registry.rs:346-377 | rejects exactly invalid candidates; otherwise the records change if and only if the save succeeds |
| `RegistryRuns.CredentialSourceRegistry.Upsert` | crates/haider-accounts/src/source_registry.rs:253-306 | the specified newcomer, revival, refusal or failed commit |
| `RegistryRuns.CredentialSourceRegistry.EnrollRoot` | crates/haider-accounts/src/source_registry.rs:221-229 | enrolment of a canonical directory |
| `RegistryRuns.CredentialSourceRegistry.Discover` | crates/haider-accounts/src/source_registry.rs:234-251 | automatic discovery |
| `RegistryRuns.CredentialSourceRegistry.UpdateRecord` | crates/haider-accounts/src/source_registry.rs:308-330 | update of a record at immutable coordinates |
| `RegistryRuns.CredentialSourceRegistry.RemoveRecord` | crates/haider-accounts/src/source_registry.rs:332-344 | removal |
| `RegistryRuns.EveryRunSafe` | crates/haider-accounts/src/source_registry.rs:189-410 | over every run with failing commits, crashes and new processes: at most 64 records with unique identities, places and aliases, in memory and in all that a crash can leave |
| `RegistryRuns.DurableAfter` | crates/haider-accounts/src/source_registry.rs:346-377 | exactly when the durable file holds the records in memory, after each kind of event |
| `RegistryRuns.IdentityFixed` | crates/haider-accounts/src/source_registry.rs:381-395 | at any two times of a run, two records have the same identity if and only if they have the same kind and root |
| `RegistryRuns.PlaceIdentity` | crates/haider-accounts/src/source_registry.rs:241-251 | for one place at two times of a run, the identities agree if and only if the roots are the same bytes, because places are compared by path components |
| `RegistryRuns.IdentityMoves` | crates/haider-accounts/src/source_registry.rs:451-458 | a run in which a place is discovered as `/a/b`, removed, and discovered again as `/a//b` with another identity |
| `RegistryRuns.DiscoveryAlters` | crates/haider-accounts/src/source_registry.rs:231-251 | discovery adds at most one record and alters none |
| `RegistryRuns.TombstoneOutlives` | crates/haider-accounts/src/source_registry.rs:245-248 | a disabled record, or any other, outlives every operation that does not name it or enrol its place, discovery of that very place included, with failing commits, crashes and restarts |
| `RegistryRuns.ReenrolmentKeeps` | crates/haider-accounts/src/source_registry.rs:259-277 | re-enrolment keeps identity, alias and root of the record and every other record |
| `RegistryRuns.AliasUnique` | crates/haider-accounts/src/source_registry.rs:214-219 | an account alias finds at most one record |
| `RegistryLaws.NewPlace` | crates/haider-accounts/src/source_registry.rs:253-306 | an unknown place is refused if it is not acceptable or 64 records are there; otherwise exactly one record is added and returned: enabled, pending, labelled, owned by its kind |
| `RegistryLaws.KnownPlace` | crates/haider-accounts/src/source_registry.rs:234-277 | a known place is returned as it is, except that the enrolment of a disabled one enables it and resets health, scan time and label |
| `RegistryLaws.NamedRecord` | crates/haider-accounts/src/source_registry.rs:308-344 | update and removal by identity: exactly which are refused and what the accepted ones leave and return |
| `LogRotation.NativeLog.Record` | crates/haider-android/src/logging.rs:18-66 | the rotation loop and append leave the specified files, wherever the call fails or is killed |
| `LogRotation.RotatingReading` | crates/haider-android/src/logging.rs:34-45 | however far a rotation gets, the files read as one contiguous stretch |
| `LogRotation.RotatingLoses` | crates/haider-android/src/logging.rs:34-45 | a rotation loses nothing while there is no oldest file |
| `LogRotation.CallDrops` | crates/haider-android/src/logging.rs:18-66 | one call, wherever it fails or is killed, drops nothing or exactly the oldest file, and then adds what it wrote |
| `LogRotation.EveryRunReads` | crates/haider-android/src/logging.rs:18-66 | over every run: at most five files, which read in order as a contiguous suffix of all that was written, in whole chunks |
| `LogRotation.EveryRunFits` | crates/haider-android/src/logging.rs:33 | over every run no file exceeds 1048576 bytes, if every line fits |
| `LogRotation.OversizedLine` | crates/haider-android/src/logging.rs:33 | a line that does not fit exceeds the cap |
| `LogRotation.NothingLost` | crates/haider-android/src/logging.rs:18-66 | nothing is lost before the fourth rotated file exists |
| `LogRotation.FittingAppends` | crates/haider-android/src/logging.rs:31-66 | a call rotates nothing while the line keeps the current file within 1048576 bytes: it appends exactly what was written and touches no other file |
| `LogRotation.OverflowRotates` | crates/haider-android/src/logging.rs:33-45 | otherwise the current file holds exactly the line and every older file has moved up by one |
| `LogRotation.KeptWhole` | crates/haider-android/src/logging.rs:18-66 | over every run, nothing is rotated or lost while all that was asked for fits in 1048576 bytes, whatever fails |
| `LogRotation.NothingLostWithinCap` | crates/haider-android/src/logging.rs:18-66 | hence nothing is lost while at most 1048576 bytes have been written by calls that succeed |
| `LogRotation.LostThoughShort` | crates/haider-android/src/logging.rs:33-45 | calls that fail may lose a line with two bytes written: the size that counts is what was asked for |
| `ProxyState.RecordedWhereEntered` | scripts/qa-gate/turnperf_support.py:348-411 | in every interleaving each request is recorded under the case in which its handler entered, and numbers in a case run from 1 without gaps |
| `ProxyState.CaseBoundary` | scripts/qa-gate/turnperf_support.py:348-362 | a case begins only with no handler active, so none is blocked across it; otherwise nothing changes |
| `ProxyState.BlocksOnlyWhenShut` | scripts/qa-gate/turnperf_support.py:413-420 | a handler blocks only while the gate is shut |
| `ProxyState.GateHolds` | scripts/qa-gate/turnperf_support.py:413-420 | a handler that arrives at a gate blocks if and only if that gate is set and unreleased, and the driver is told exactly if it is set |
| `ProxyState.BlockedUntilReleased` | scripts/qa-gate/turnperf_support.py:419-420 | and it stays blocked until the gate is released, whatever the others do |
| `ProxyState.ReleaseOpens` | scripts/qa-gate/turnperf_support.py:429-432 | releasing the gate does that and nothing else |
| `ProxyState.RecordsRequest` | scripts/qa-gate/turnperf_support.py:373-411 | a recorded request is one entry with its case, shape, next number and payload in both lists and the ledger |
| `ProxyState.ReleaseFrees` | scripts/qa-gate/turnperf_support.py:413-432 | after release a blocked handler's next check passes, and nothing can shut the gate before that |
| `ProxyState.LedgerExact` | scripts/qa-gate/turnperf_support.py:405-410 | the ledger file equals the in-memory ledger if and only if no write fell short |
| `ProxyState.ShortWriteLags` | scripts/qa-gate/turnperf_support.py:405-410 | one short write makes them differ |
| `CompletionReceipt.RunInv` | crates/haider-android/src/completion.rs:39-91 | in every interleaving: one thread inside the lock, publication before completion, answers equal to the status, no lost wake-up |
| `CompletionReceipt.FirstFinishStays` | crates/haider-android/src/completion.rs:62-76 | the first completion fixes status and observation for good, and nothing is published again |
| `CompletionReceipt.PublishedOnce` | crates/haider-android/src/completion.rs:59-72 | publication runs at most once, and before any thread can learn of completion |
| `CompletionReceipt.ObservesPublished` | crates/haider-android/src/completion.rs:44-50 | whoever observes after completion sees the one published observation |
| `CompletionReceipt.AnswersAgree` | crates/haider-android/src/completion.rs:39-91 | all answers on any threads at any times are the first result |
| `CompletionReceipt.NobodySleeps` | crates/haider-android/src/completion.rs:75-83 | once completion is visible and the lock is free, no thread is left asleep |
| `CompletionReceipt.LatchedGeneration` | crates/haider-android/src/completion.rs:44-57 | after an error is latched, no observe changes the observation, and the generation stays, through completion too |
| `CompletionReceipt.Observes` | crates/haider-android/src/completion.rs:44-50 | an observe before completion without a latched error stores and returns the refresh; any other changes nothing |
| `CompletionReceipt.FailLatches` | crates/haider-android/src/completion.rs:52-57 | a failure before completion latches its error under the observed generation |
| `CompletionReceipt.WaitAnswers` | crates/haider-android/src/completion.rs:78-91 | a wait answers the status, sleeps, or latches a timeout when its budget is spent |
| `CompletionReceipt.GetAnswers` | crates/haider-android/src/completion.rs:39-41 | asking answers the status and changes nothing |
| `CompletionReceipt.EndsAs` | crates/haider-android/src/completion.rs:62-75 | a completed run is observed as stopped exactly after `Ok` and a forced shutdown, and as failed with its status otherwise |
| `CompletionReceipt.FinishCompletes` | crates/haider-android/src/completion.rs:62-76 | a finish publishes first, then stores what it published, then its status |
| `BytePairs.Reduced` | scripts/qa-gate/economydiet_measure.py:51-58 | the splice loop terminates with the greedy reduction |
| `BytePairs.ReduceKeeps` | scripts/qa-gate/economydiet_measure.py:51-58 | merging keeps the bytes and makes only tokens of the vocabulary |
| `BytePairs.GreedyEnds` | scripts/qa-gate/economydiet_measure.py:52-58 | every maximal run of least-rank, leftmost merges ends in the same tokens |
| `BytePairs.LeastRankFirst` | scripts/qa-gate/economydiet_measure.py:53-57 | of three bytes whose two pairs are both tokens, the pair of least rank is merged, the first on a tie |
| `BytePairs.Tokenizes` | scripts/qa-gate/economydiet_measure.py:46-60 | the tokens behind a count are in the vocabulary, spell the piece, and have no mergeable pair left |
| `BytePairs.CountsOne` | scripts/qa-gate/economydiet_measure.py:49-50 | a piece counts one if and only if it is itself a token, and never more than its bytes |
| `BytePairs.ReferenceTokenizer.PieceCount` | scripts/qa-gate/economydiet_measure.py:46-60 | the memoised answer is the uncached one, whatever was asked before |
| `BytePairs.ReferenceTokenizer.CountPieces` | scripts/qa-gate/economydiet_measure.py:83 | the sum over the pieces of a text |
| `BytePairs.CommonPrefix` | scripts/qa-gate/economydiet_measure.py:86-92 | the longest prefix that all lists share up to canonical form |

## Left out

- Symbolic links, owners, modes and link counts of vault, log and registry files: facts of the operating system, each one branch.
- AES-GCM, BLAKE3 and SHA-256 inside, zeroization and random generation: foreign code, taken as ideal.
- JSON reading and writing of snapshots, ledgers and log lines: taken as an exact round trip.
- Listing a vault directory while other callers change it: directory iteration is not atomic, so listings are stated for a directory at rest.
- The operating-system file locks that both file vaults take for a refresh lease: only the process-local lease is modelled, and a poisoned registry mutex is not.
- A vault root that does not exist yet: the directory itself is taken as durable.
- ItemLaws.ClassificationExact: takes the extent of each item from the tree, because the grammar of Rust is not modelled, and asks that every flag be up exactly as long as its item has blocks, because the code is wrong otherwise; `LateExact` and `EarlyExact` are exact for one item that is out of order, and sources with several whose errors cancel in the counts are not characterised.
- ItemTrees.Read: judges each attribute alone, as the code does; an item that only two attributes together confine to tests is production code in both.
- ItemTrees.ScanIsFlow: speaks of balanced sources; unbalanced brackets and a stray `#` are covered by the stack and conservation laws only.
- UnsafeScanner.CountTokens: decoding an escaped string literal in a `path` attribute and looking for its target are parameters, because one is JSON and the other reads the file system; the shape of the attribute and raw literals are modelled.
- RustLexer.LexRust: the Unicode classes of letters, digits and white space are parameters; only that a newline is white space is used.
- Threads that record native log lines at the same time: calls are taken one after another.
- LogRotation.EveryRunReads: speaks of what each call wrote, so a line torn by a failing write counts as the part that reached the file.
- CompletionReceipt.NobodySleeps: a safety statement; that a woken thread is scheduled is not modelled.
- ProxyState.LedgerExact: a torn ledger line is one row; how the next line joins it is not modelled.
- The proxy's HTTP handling, header normalization and response bodies: a request is its derived payload.
- BytePairs.ReferenceTokenizer.CountPieces: takes the pieces; the regular-expression pretokenizer that makes them is not modelled.
- Error messages and retry flags of the stores: errors are their codes.
- `keychain.rs` and `env_bridge.rs`: the first passes each call to the operating system's credential store, the second looks names up in a fixed table; neither keeps state of its own.
- The Android owner and JNI layer, installers, packaging, probes and samplers: they start processes, move files and measure time, and nothing modelled here depends on what they do.
