# OpenSim login service and inventory archive writer, modelled in Dafny

This project models two parts of OpenSim.

The **LLLogin service** takes a viewer's login request through a fixed sequence of checks:

1. account lookup;
2. minimum login level;
3. scope;
4. authentication with the `$1$`-tagged MD5 secret;
5. inventory;
6. presence login;
7. grid-user state and home region;
8. start-location resolution (`home`, `last`, or a custom `uri:region&x&y&z`, which may name a foreign region `region@host[:port]` reached through a gatekeeper);
9. agent launch at the destination, or at the grid's fallback regions;
10. the friends list.

Each check ends the login with a typed failure. Once the presence is logged in, a later failure logs the session out again. Any exception is caught and reported as an internal error, with a logout when a presence service is configured.

The service also has two administrative routes. A remote request changes the minimum login level, and the console commands `login level`, `login reset` and `login text` change the level or the welcome message.

The **inventory archive write request** does the following:

- It normalises the requested inventory path. Empty fields are dropped, and a final `*` means "only the folder's contents".
- It picks the target: the root, the first folder found, or else an item.
- It writes the archive entries in order: the control file first, then the folder tree depth first, or the single item.
- Each node is named by its escaped name, `__` and its id.

## How the model is built

- **Backends are values.** Backend services are values in `LoginTypes.Services`, and each one's answers are a function. A service that is not configured, or a null result, is an `Option`.
- **Calls are recorded.** A login returns its response together with the trace of backend calls that matter (`LoginTypes.Call`). This is how the logout discipline is stated and proved.
- **Exceptions.** The exceptions the login code itself raises are modelled as an `Exit.Throw`, which `Login` turns into `InternalError`. These are:
  - a null dereference of an unconfigured service, or of a null list;
  - `float.Parse("")` on a custom location that does not match the pattern.
- **Randomness becomes inputs.** The session id, the circuit code and the capability path are passed in as `Nonces`.
- **Parsers are hand-modelled.** Ids are 128-bit numbers with their canonical 36-character text. `Int32.TryParse` and `UInt32.TryParse` are modelled by hand: surrounding white space, a sign, ASCII digits and the range check. So is the custom-location regular expression, including .NET's `$` tolerating one final newline.
- **Malformed custom locations.** The code checks the location pattern's match object against null, but a failed match is never null. So a custom location that does not match raises, and the login ends as an internal error (with a logout). It is not reported as a grid problem. The model follows the code here (`Destinations.MalformedRaises`, `LoginService.DestinationMiss`).
- **A logout with no presence service.** The logout after an unresolved destination or a failed launch is not guarded by a presence-service check. Without a presence service, those failures also become internal errors (`LoginService.DestinationMissWithoutPresence`).

## Model

| member | source | states |
|---|---|---|
| `Strings.Split` | OpenSim/Region/CoreModules/Avatar/Inventory/Archiver/InventoryArchiveWriteRequest.cs:204-206 | splitting on a delimiter gives at least one field, no field holds the delimiter, and every field's characters come from the input |
| `Strings.NonEmpty` | OpenSim/Region/CoreModules/Avatar/Inventory/Archiver/InventoryArchiveWriteRequest.cs:204-206 | dropping empty fields keeps only non-empty fields taken from the input, and keeps every non-empty field |
| `Strings.NonEmptyAppend` | OpenSim/Region/CoreModules/Avatar/Inventory/Archiver/InventoryArchiveWriteRequest.cs:204-206 | dropping empty fields from a concatenation is dropping them from each part and concatenating, so the kept fields are all the non-empty ones, in order |
| `Strings.NonEmptySingle` | OpenSim/Region/CoreModules/Avatar/Inventory/Archiver/InventoryArchiveWriteRequest.cs:204-206 | a single field is kept exactly when it is not empty |
| `Strings.JoinSplit` | OpenSim/Region/CoreModules/Avatar/Inventory/Archiver/InventoryArchiveWriteRequest.cs:204-206 | joining the fields of a split with the delimiter gives back the string |
| `Strings.SplitJoin` | OpenSim/Region/CoreModules/Avatar/Inventory/Archiver/InventoryArchiveWriteRequest.cs:219-232 | splitting a join of delimiter-free fields gives back the fields |
| `Strings.SplitAtSeparator` | OpenSim/Services/LLLoginService/LLLoginService.cs:527-532 | a name containing '@' splits into at least two parts, so the too-few-parts guard never fires |
| `Numerals.TryParseInt32` | OpenSim/Services/LLLoginService/LLLoginService.cs:801-802 | a value is produced exactly when the trimmed text is an optionally signed decimal numeral within the 32-bit signed range |
| `Numerals.TryParseUInt32` | OpenSim/Services/LLLoginService/LLLoginService.cs:539-541 | a value is produced exactly when the trimmed text is a numeral (sign allowed) within the 32-bit unsigned range |
| `Numerals.Int32TextRoundTrip` | OpenSim/Services/LLLoginService/LLLoginService.cs:801-802 | every 32-bit signed integer written in decimal parses back to itself |
| `Numerals.UInt32TextRoundTrip` | OpenSim/Services/LLLoginService/LLLoginService.cs:539-541 | every 32-bit unsigned integer written in decimal parses back to itself |
| `Numerals.TryParseInt32Layout` | OpenSim/Services/LLLoginService/LLLoginService.cs:801-802 | surrounding white space, a sign and leading zeros around a decimal numeral parse to the signed value it denotes, exactly when that value is within the 32-bit signed range |
| `Numerals.TryParseUInt32Layout` | OpenSim/Services/LLLoginService/LLLoginService.cs:539-541 | surrounding white space, a sign and leading zeros around a decimal numeral parse to its value exactly when that is within 32 bits and the number is not negative (`-0` is accepted) |
| `Uuids.Text` | OpenSim/Region/CoreModules/Avatar/Inventory/Archiver/InventoryArchiveWriteRequest.cs:354-361 | an id is written as exactly 36 characters |
| `Uuids.TextRoundTrip` | OpenSim/Region/CoreModules/Avatar/Inventory/Archiver/InventoryArchiveWriteRequest.cs:354-376 | the hex groups of an id's text read back to the id |
| `Uuids.TextInjective` | OpenSim/Region/CoreModules/Avatar/Inventory/Archiver/InventoryArchiveWriteRequest.cs:354-376 | distinct ids have distinct texts |
| `StartLocation.ParseStart` | OpenSim/Services/LLLoginService/LLLoginService.cs:392-485 | "home" and "last" are recognised exactly; every other token is matched against the custom-location pattern |
| `StartLocation.MatchUri` | OpenSim/Services/LLLoginService/LLLoginService.cs:484-485 | a match captures a non-empty region free of '&' from a text that starts with "uri:" |
| `StartLocation.MatchUriForm` | OpenSim/Services/LLLoginService/LLLoginService.cs:484-495 | every match is of the pattern's form: the text is "uri:", the captured region and three '&'-separated numerals, with at most one final newline, and the position is the numerals' values |
| `StartLocation.MatchFields` | OpenSim/Services/LLLoginService/LLLoginService.cs:484-495 | every token of a region without '&' and three numerals, leading zeros allowed, matches and yields that region and the numerals' values |
| `StartLocation.MatchFieldsNewline` | OpenSim/Services/LLLoginService/LLLoginService.cs:484-495 | the same token followed by one newline still matches with the same captures |
| `StartLocation.MatchPadded` | OpenSim/Services/LLLoginService/LLLoginService.cs:484-495 | zero-padded coordinates give the position they denote |
| `StartLocation.MatchUriText` | OpenSim/Services/LLLoginService/LLLoginService.cs:484-497 | every custom token built from a region without '&' and a position matches and yields that region and position |
| `StartLocation.MatchUriTextNewline` | OpenSim/Services/LLLoginService/LLLoginService.cs:484-485 | a custom token followed by one newline still matches, with the same captures |
| `StartLocation.NoPrefixNoMatch` | OpenSim/Services/LLLoginService/LLLoginService.cs:484-485 | a token not starting with "uri:" never matches |
| `StartLocation.SplitForeign` | OpenSim/Services/LLLoginService/LLLoginService.cs:527-541 | a foreign reference exists exactly when the name holds '@'; its region and host hold no '@', the host no ':', and the port is within 32 bits |
| `StartLocation.SplitForeignWithPort` | OpenSim/Services/LLLoginService/LLLoginService.cs:535-541 | `region@host:port` splits back into exactly that region, host and port |
| `StartLocation.SplitForeignWithoutPort` | OpenSim/Services/LLLoginService/LLLoginService.cs:537-541 | `region@host` splits into that region and host with port 0 |
| `StartLocation.SplitForeignPortText` | OpenSim/Services/LLLoginService/LLLoginService.cs:527-541 | `region@host:text` gives that region and host, and as port the unsigned 32-bit parse of the text, or 0 when it does not parse |
| `StartLocation.SplitForeignBadPort` | OpenSim/Services/LLLoginService/LLLoginService.cs:538-541 | a port text that is not a 32-bit unsigned number leaves the port at 0 |
| `Destinations.FindForeignRegion` | OpenSim/Services/LLLoginService/LLLoginService.cs:567-585 | the provisional gatekeeper carries exactly the host, port and region name; a region comes back exactly when link-region succeeds and the hyperlink lookup finds the linked id |
| `Destinations.FindDestination` | OpenSim/Services/LLLoginService/LLLoginService.cs:380-565 | without a grid service nothing resolves; the resolver raises exactly for an unmatched custom token; a gatekeeper is set exactly for a foreign custom location; at most one gatekeeper call is made |
| `Destinations.SafeTier` | OpenSim/Services/LLLoginService/LLLoginService.cs:418-437 | the safe tier is the first default region, else the first region of an unrestricted name search, else nothing |
| `Destinations.HomeResolved` | OpenSim/Services/LLLoginService/LLLoginService.cs:392-416 | "home" with a home region goes there with reason home and the stored home position and look-at |
| `Destinations.HomeFallsBack` | OpenSim/Services/LLLoginService/LLLoginService.cs:402-439 | "home" without a home region uses the safe tier, and fails only when both tiers are empty |
| `Destinations.LastResolved` | OpenSim/Services/LLLoginService/LLLoginService.cs:441-477 | "last" with a non-zero, known last region goes there with reason last and the stored last position and look-at |
| `Destinations.LastFallsBack` | OpenSim/Services/LLLoginService/LLLoginService.cs:451-470 | "last" with a zero or unknown last region uses the safe tier |
| `Destinations.LocalUri` | OpenSim/Services/LLLoginService/LLLoginService.cs:500-519 | a local custom location goes to the first by-name hit (reason url), else the first default region (reason safe), at the token's position |
| `Destinations.ForeignUri` | OpenSim/Services/LLLoginService/LLLoginService.cs:520-545 | a foreign custom location links exactly its host, port and region through the gatekeeper when a user-agent service exists, and fails without one |
| `Destinations.MalformedRaises` | OpenSim/Services/LLLoginService/LLLoginService.cs:484-496 | with a grid service, a custom token that does not match raises, with no call made |
| `Launch.SelectAdmission` | OpenSim/Services/LLLoginService/LLLoginService.cs:614-639 | admission is indirect exactly when a user-agent service exists, else direct through the local then the remote simulation service, and impossible without any; a local destination gets the configured gatekeeper host and port |
| `Launch.AttemptCall` | OpenSim/Services/LLLoginService/LLLoginService.cs:758-760 | each admission request carries the login's circuit and the region tried |
| `Launch.ServiceUrls` | OpenSim/Services/LLLoginService/LLLoginService.cs:739-756 | the circuit's service URLs have exactly the account's keys; non-empty values are copied, and null or empty ones are replaced by the configuration entry or "" |
| `Launch.MakeAgent` | OpenSim/Services/LLLoginService/LLLoginService.cs:699-737 | the circuit is a root agent for the account, with the session ids, circuit code, capability path, position, client metadata, the stored appearance or a fresh one, and the service URLs |
| `Launch.TryRegions` | OpenSim/Services/LLLoginService/LLLoginService.cs:648-665 | regions are tried in order until the first admits; no earlier region admitted; the reason is the last one reported; one request per region tried |
| `Launch.LaunchAgentAtGrid` | OpenSim/Services/LLLoginService/LLLoginService.cs:604-697 | every admission call carries the same circuit; a failed launch keeps the primary region and reason; arriving anywhere but the primary region means reason safe |
| `Launch.LaunchWithoutConnector` | OpenSim/Services/LLLoginService/LLLoginService.cs:641-697 | with no way to admit agents no request is made and the launch fails with an empty reason |
| `Launch.LaunchPrimary` | OpenSim/Services/LLLoginService/LLLoginService.cs:643-647 | the primary region is tried first; when it admits, nothing else is tried and the region and reason are kept |
| `Launch.LaunchWithoutFallbacks` | OpenSim/Services/LLLoginService/LLLoginService.cs:643-652 | a refused primary with no grid service, or no fallback list, fails at the primary with the primary's reason after the primary attempt and at most the one fallback query |
| `Launch.LaunchFallbacks` | OpenSim/Services/LLLoginService/LLLoginService.cs:648-690 | after a refusal the fallbacks for the account's scope at the primary's location are tried in order; the first that admits becomes the region with reason safe, and if none admits the launch fails at the primary |
| `Launch.FallbackWalk` | OpenSim/Services/LLLoginService/LLLoginService.cs:648-665 | a launch built from a walk over the fallbacks reports one request per fallback tried, in list order; it admits exactly when some fallback admits, at the first that does and with its reason; otherwise every fallback was tried and the last reason heard is kept |
| `LoginService.NormaliseSecret` | OpenSim/Services/LLLoginService/LLLoginService.cs:256-258 | a `$1$`-tagged password authenticates with the text after the tag, any other with its MD5 digest |
| `LoginService.PreHashedSecretAgrees` | OpenSim/Services/LLLoginService/LLLoginService.cs:256-258 | a password and its `$1$`-tagged digest authenticate with the same secret |
| `LoginService.LoginBody` | OpenSim/Services/LLLoginService/LLLoginService.cs:219-370 | a normal failure logs out once exactly when the presence login was accepted, and the logout is the last call; the body itself never reports an internal error |
| `LoginService.CheckInventory` | OpenSim/Services/LLLoginService/LLLoginService.cs:267-297 | the same logout accounting from the inventory check onward |
| `LoginService.AfterPresence` | OpenSim/Services/LLLoginService/LLLoginService.cs:299-328 | after presence login, a failure is closed by exactly one logout as the last call |
| `LoginService.LaunchStage` | OpenSim/Services/LLLoginService/LLLoginService.cs:330-369 | a failed launch is denied with the launch's reason and one logout (raises without a presence service); a success carries the launch's circuit, region and reason and the current welcome message |
| `LoginService.Login` | OpenSim/Services/LLLoginService/LLLoginService.cs:211-378 | an internal error comes exactly from an exception: every exception of the body ends as an internal error, with the presence logged out when a presence service exists, and a normal return passes through unchanged |
| `LoginService.LogoutDiscipline` | OpenSim/Services/LLLoginService/LLLoginService.cs:289-377 | at most one logout, always the last call; none on success; one on an internal error exactly when presence is configured; otherwise one exactly when the presence login was accepted |
| `LoginService.UnknownAccount` | OpenSim/Services/LLLoginService/LLLoginService.cs:224-229 | an unknown account is a user problem with no call made |
| `LoginService.BlockedBeforeCredentials` | OpenSim/Services/LLLoginService/LLLoginService.cs:231-235 | an account below the minimum level is blocked before authentication, whatever the password |
| `LoginService.ScopeMismatchLooksUnknown` | OpenSim/Services/LLLoginService/LLLoginService.cs:237-247 | a scoped request for an account of another non-zero scope gets exactly the result for an unknown account |
| `LoginService.UnscopedAdoptsAccountScope` | OpenSim/Services/LLLoginService/LLLoginService.cs:248-251 | an unscoped request behaves as a request in the account's own scope |
| `LoginService.AuthenticationStep` | OpenSim/Services/LLLoginService/LLLoginService.cs:253-265 | the first call authenticates the principal with the normalised secret; an empty or non-id token is a user problem with nothing else done |
| `LoginService.InventoryRequired` | OpenSim/Services/LLLoginService/LLLoginService.cs:270-280 | with inventory required, a missing service or an absent or empty skeleton is an inventory problem after authentication only |
| `LoginService.PresenceRefused` | OpenSim/Services/LLLoginService/LLLoginService.cs:289-297 | a refused presence login is a grid problem with no logout |
| `LoginService.DestinationMiss` | OpenSim/Services/LLLoginService/LLLoginService.cs:315-328 | an unresolved destination after presence login is a grid problem (an internal error for an unmatched custom token) closed by exactly one logout |
| `LoginService.MissExit` | OpenSim/Services/LLLoginService/LLLoginService.cs:315-328 | after presence login, a destination miss raises exactly when a grid service exists and the custom token does not match; otherwise it returns a grid problem |
| `LoginService.DestinationMissWithoutPresence` | OpenSim/Services/LLLoginService/LLLoginService.cs:323-328 | without a presence service an unresolved destination ends as an internal error with no logout |
| `LoginAdmin.SetLevel` | OpenSim/Services/LLLoginService/LLLoginService.cs:162-209 | the request succeeds exactly when remote setting is allowed, the unscoped account exists with level at least 200 and the raw password yields an id token; success sets exactly the requested level, and refusal changes nothing |
| `LoginAdmin.HandleLoginCommand` | OpenSim/Services/LLLoginService/LLLoginService.cs:790-812 | only `level` and `reset` change the level, and only `text` with an argument changes the welcome, to that argument; `level` with an argument sets its 32-bit parse, or 0 when it does not parse; `reset` sets 0; unknown subcommands and a missing argument change nothing; a changed level is a 32-bit value |
| `LoginAdmin.LevelCommandSets` | OpenSim/Services/LLLoginService/LLLoginService.cs:796-803 | `login level n` sets exactly n for every 32-bit n |
| `LoginAdmin.LevelCommandFallsBack` | OpenSim/Services/LLLoginService/LLLoginService.cs:801-802 | `login level` with an argument that is not a 32-bit integer sets the level to 0 |
| `LoginAdmin.LevelCommandPadded` | OpenSim/Services/LLLoginService/LLLoginService.cs:796-803 | `login level` with a signed or zero-padded numeral sets the value it denotes when that fits 32 bits, and 0 otherwise |
| `LoginAdmin.RaisedLevelBlocks` | OpenSim/Services/LLLoginService/LLLoginService.cs:199-235 | after a granted level request, every account below the new level is blocked with no call made |
| `InventoryPaths.Components` | OpenSim/Region/CoreModules/Avatar/Inventory/Archiver/InventoryArchiveWriteRequest.cs:203-206 | path components are non-empty and free of the delimiter |
| `InventoryPaths.ComponentsOfJoin` | OpenSim/Region/CoreModules/Avatar/Inventory/Archiver/InventoryArchiveWriteRequest.cs:203-206 | the components of delimiter-free fields joined by the delimiter are exactly the non-empty fields, in order |
| `InventoryPaths.ComponentsExample` | OpenSim/Region/CoreModules/Avatar/Inventory/Archiver/InventoryArchiveWriteRequest.cs:203-206 | "a//b" has the components "a" and "b" |
| `InventoryPaths.LastIndexOf` | OpenSim/Region/CoreModules/Avatar/Inventory/Archiver/InventoryArchiveWriteRequest.cs:232 | the index found holds the character and none follows it; -1 means it does not occur |
| `InventoryPaths.Normalise` | OpenSim/Region/CoreModules/Avatar/Inventory/Archiver/InventoryArchiveWriteRequest.cs:210-216 | contents-only mode is chosen exactly when the last component is `*` |
| `InventoryPaths.TerminatedJoinIsJoin` | OpenSim/Region/CoreModules/Avatar/Inventory/Archiver/InventoryArchiveWriteRequest.cs:218-222 | appending each field and a delimiter is joining the fields plus one delimiter |
| `InventoryPaths.NormalisedIsJoin` | OpenSim/Region/CoreModules/Avatar/Inventory/Archiver/InventoryArchiveWriteRequest.cs:218-232 | the normalised path is the kept components joined by single delimiters |
| `InventoryPaths.PathRoundTrip` | OpenSim/Region/CoreModules/Avatar/Inventory/Archiver/InventoryArchiveWriteRequest.cs:203-232 | the normalised path splits back into exactly the kept components, so it has no leading, trailing or doubled delimiter |
| `InventoryPaths.RootIff` | OpenSim/Region/CoreModules/Avatar/Inventory/Archiver/InventoryArchiveWriteRequest.cs:224-229 | the root folder is meant exactly when the path holds no component, or only `*` |
| `InventoryPaths.RootExamples` | OpenSim/Region/CoreModules/Avatar/Inventory/Archiver/InventoryArchiveWriteRequest.cs:224-229 | "", "/", "*" and "//*" all name the root folder, the last two in contents-only mode |
| `InventoryPaths.LeadingDelimiterIgnored` | OpenSim/Region/CoreModules/Avatar/Inventory/Archiver/InventoryArchiveWriteRequest.cs:203-206 | a leading delimiter does not change the normalised request |
| `InventoryArchive.FolderName` | OpenSim/Region/CoreModules/Avatar/Inventory/Archiver/InventoryArchiveWriteRequest.cs:354-361 | a folder's archive name is the escaped name plus 39 characters and ends with the delimiter |
| `InventoryArchive.ItemName` | OpenSim/Region/CoreModules/Avatar/Inventory/Archiver/InventoryArchiveWriteRequest.cs:369-376 | an item's archive name is the escaped name plus 42 characters and ends with ".xml" |
| `InventoryArchive.SaveItem` | OpenSim/Region/CoreModules/Avatar/Inventory/Archiver/InventoryArchiveWriteRequest.cs:142-147 | an item is saved as a ".xml" record of that item strictly below the directory it is saved in |
| `InventoryArchive.SavedItemPaths` | OpenSim/Region/CoreModules/Avatar/Inventory/Archiver/InventoryArchiveWriteRequest.cs:142-147 | two items saved in the same directory share a path exactly when they have the same id and escaped name |
| `InventoryArchive.SaveItems` | OpenSim/Region/CoreModules/Avatar/Inventory/Archiver/InventoryArchiveWriteRequest.cs:183-186 | a folder's items are saved one record each, in order, in the same directory |
| `InventoryArchive.RecordsOfItems` | OpenSim/Region/CoreModules/Avatar/Inventory/Archiver/InventoryArchiveWriteRequest.cs:183-186 | the records of the saved items are exactly those items, in order |
| `InventoryArchive.SaveFolder` | OpenSim/Region/CoreModules/Avatar/Inventory/Archiver/InventoryArchiveWriteRequest.cs:165-188 | a folder's walk has one entry per node of its tree, one fewer when the folder itself is not saved |
| `InventoryArchive.SaveFolders` | OpenSim/Region/CoreModules/Avatar/Inventory/Archiver/InventoryArchiveWriteRequest.cs:179-182 | a list of folders' walks has one entry per node of their trees |
| `InventoryArchive.Execute` | OpenSim/Region/CoreModules/Avatar/Inventory/Archiver/InventoryArchiveWriteRequest.cs:193-280 | aborts with the normalised path exactly when it is neither root nor a found folder nor a found item; the target is the root, else the first folder found, else the item; the control file comes first |
| `InventoryArchive.WalkBelow` | OpenSim/Region/CoreModules/Avatar/Inventory/Archiver/InventoryArchiveWriteRequest.cs:165-188 | every entry of a walk lies below the path it is saved under; saving the folder itself writes its directory first and everything else inside it |
| `InventoryArchive.ControlFileFirst` | OpenSim/Region/CoreModules/Avatar/Inventory/Archiver/InventoryArchiveWriteRequest.cs:255-280 | the control file is the first entry and occurs nowhere else; all other entries lie inside the inventory directory, directories ending in the delimiter and items in ".xml" |
| `InventoryArchive.HeadThenContents` | OpenSim/Region/CoreModules/Avatar/Inventory/Archiver/InventoryArchiveWriteRequest.cs:167-174 | saving a folder itself is its directory followed by its contents saved inside that directory |
| `InventoryArchive.PrefixWalk` | OpenSim/Region/CoreModules/Avatar/Inventory/Archiver/InventoryArchiveWriteRequest.cs:165-188 | a walk does not depend on where it is saved: saving under `p + q` is saving under `q` and moving every entry under `p` |
| `InventoryArchive.ContentsOnlyRebases` | OpenSim/Region/CoreModules/Avatar/Inventory/Archiver/InventoryArchiveWriteRequest.cs:167-174 | saving a folder with and without itself writes the same relative walk, either inside the folder's own directory after that directory or directly in the inventory directory |
| `InventoryArchive.ArchiveOfFolder` | OpenSim/Region/CoreModules/Avatar/Inventory/Archiver/InventoryArchiveWriteRequest.cs:262-272 | a folder archive has one entry per node after the control file, headed by the folder's directory with all else inside it; in contents-only mode it is one entry shorter and holds the relative walk in the inventory directory |
| `InventoryArchive.ItemTargetLayout` | OpenSim/Region/CoreModules/Avatar/Inventory/Archiver/InventoryArchiveWriteRequest.cs:239-280 | a path naming no folder but an item archives the control file and that one item record |
| `InventoryArchive.WalkRecordsTree` | OpenSim/Region/CoreModules/Avatar/Inventory/Archiver/InventoryArchiveWriteRequest.cs:142-188 | a walk records each item of the tree exactly once, subfolders' items before the folder's own, in order |
| `InventoryArchive.ArchiveRecords` | OpenSim/Region/CoreModules/Avatar/Inventory/Archiver/InventoryArchiveWriteRequest.cs:255-280 | the control file records no item, so a folder archive records exactly its tree's items, in order |
| `InventoryArchive.FolderArchiveRecordsTree` | OpenSim/Region/CoreModules/Avatar/Inventory/Archiver/InventoryArchiveWriteRequest.cs:146-148 | a folder archive records exactly the tree's items, so the creators noted are exactly those items' creators |
| `InventoryArchive.NamesIdentifyNodes` | OpenSim/Region/CoreModules/Avatar/Inventory/Archiver/InventoryArchiveWriteRequest.cs:343-376 | equal folder names, or equal item names, mean equal ids and escaped names; a folder name never equals an item name |

## Left out

- Logging, the login response assembly (LLLoginResponse, library, map and search URLs) and the client IP text: they carry no decision. The client IP's null dereference (LLLoginService.cs:218) is not modelled.
- Exceptions thrown by backend services themselves: backends are modelled as total functions, so only the exceptions the login code raises on null services and results, and on an unmatched custom token, are modelled.
- The gatekeeper host and port cache (SetHostAndPort): the parsed host and port are a configuration input.
- Destinations.FindDestination / StartLocation.MatchUri: float parsing of the position is not modelled. Coordinates are the decimal numerals' exact values, without precision or rounding. A coordinate too large for a float (a 40-digit group, say) makes `float.Parse` throw an overflow on the .NET Framework and Mono runtimes of this code (LLLoginService.cs:493-495), which the catch at LLLoginService.cs:371-377 turns into an internal error. The model resolves such a location instead.
- The regular expression's `\d` is ASCII digits only. .NET also accepts other Unicode decimal digits.
- `Int32.TryParse`/`UInt32.TryParse`: trailing NUL characters, culture-specific signs and other culture settings are not modelled.
- Dead guards are not modelled as separate paths: the null test on the match object, the null region name, and the too-few-parts test after splitting on '@' (`Strings.SplitAtSeparator` shows the last cannot fire).
- ChildrenCapSeeds, the ViaLogin teleport flag and thread safety of the settings: no decision depends on them here.
- Tar and XML output, item serialisation, asset gathering and the asset request, OSPA creator rewriting, and SaveUsers: an archive entry records only its path and the item.
- EscapeArchivePath, FindFolderByPath and FindItemByPath: InventoryArchiveUtils is not part of this model, so these are parameters of the model.
- A missing root folder and null folder contents from the inventory service: the folder tree is given as a finite snapshot.
- The archive-saved event and the closing of the save stream.
- LoginService.NormaliseSecret: the `$1$` tag is matched ordinally. `String.StartsWith(string)` in .NET compares with the current culture; the model does not follow culture-specific comparison rules.
- The archive constants (`archive.xml`, `inventory/`, the `__` node separator) and the inventory path delimiter `/` come from ArchiveConstants and InventoryFolderImpl, which are not part of this model; their values are taken as given.
