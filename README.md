# g-sorcery core, modelled in Dafny

g-sorcery is a framework for Gentoo ebuild generators that read third-party package
repositories (CTAN, ELPA, PyPI). It builds a package database from a repository's
index, stores the database on disk as JSON files, and checks it with an md5 manifest.
It then answers queries about categories, packages and versions, and resolves
dependencies for the overlay generator. This project models that core:

- `Serialization`: the raw-JSON encoding of objects that define `serialize` and
  `deserialize`. An object becomes an envelope holding its module, class and value;
  decoding goes through a `Registry`, which stands in for `importlib`.
- `Collections`: `elist`, `serializable_elist`, `Package` and `Dependency`.
- `FileSystem`: a `Disk` class. It holds the files (their decoded JSON trees) and the
  directories. Writing, removal, the tree copy and hashing are methods on it.
- `FileUtils`: JSON files with mandatory keys (`FileJSONData`/`FileJSON`).
- `DbLayout`: the on-disk layout of a database. This covers the manifest digest and
  check, metadata with legacy layout version 0, `get_layout`, and `DBLayout`'s
  `read`, `write` and `clean`.
- `PackageDb`: the database as a value (`Store`) and as an object (`PackageDB`).
  - The object covers `add_category`, `add_package`, `set_common_data`, `write`,
    `read`, `sync` and `get_max_version`.
  - It converts between database structures 0 and 1.
  - It includes the driver of `DBGenerator` with its config lookups (`convert`,
    `convert_dependency`, `in_config`, `decode_download_uries`).
- `Backend`: the dependency closure of `get_dependencies` and `solve_dependencies`.
- `Metadata`: the schema-driven XML tree of `XMLGenerator` and the
  `metadata.xml` generator.
- `CtanDb`: the parser of the CTAN `tlpdb` package index and the conversion of its
  entries into database packages.
- `ElpaDb`: the ELPA `archive-contents` ingestion of both ELPA backends
  (`gs_elpa` and `g_elpa`).
- `DbTool`: the database manipulations of `gs-db-tool`.
- `Descriptions`: the character filter CTAN applies to descriptions.

The model has some shared parts:

- `Values`: a Python value (`Value`) with the truthiness, membership, lookup and
  iteration rules the code relies on.
- `Wrappers`: a `Result` type whose error is the Python exception class.
- `Strings`: helpers on strings.

Exceptions are errors named after the exception class (`KeyError`, `FileJSONError`,
`DBLayoutError`, ...). Dictionary iteration order is not modelled: a loop over a
dictionary is a loop over a set, and when several entries could raise, the
contract only says that the reported error belongs to one of them. md5 is a
function parameter (`Hasher`).

## Model

| member | source | states |
|---|---|---|
| Serialization.Encode | g_sorcery/serialization.py:40-61 | the result is raw-serializable; the only error is TypeError |
| Serialization.EncodeList | g_sorcery/serialization.py:54-55 | a list or tuple encodes to a raw list; the only error is TypeError |
| Serialization.EncodeItems | g_sorcery/serialization.py:54-55 | the items encode one for one, into raw values of the same number |
| Serialization.EncodeFields | g_sorcery/serialization.py:52-53 | a dict encodes key for key with the same keys, each value to its own encoding |
| Serialization.ScalarsEncodeToThemselves | g_sorcery/serialization.py:45-51 | strings, None, booleans, ints and floats are returned unchanged |
| Serialization.TuplesEncodeAsLists | g_sorcery/serialization.py:54-55 | a tuple encodes exactly as the list with the same items, to a list |
| Serialization.EnvelopeShape | g_sorcery/serialization.py:27-34 | an object with serialize and deserialize encodes to an envelope with exactly the keys python_module, python_class and value |
| Serialization.EncodeRejects | g_sorcery/serialization.py:27-37 | an object without serialize, and one whose serialize-only output is falsy, raise TypeError |
| Serialization.EncodeObjFollowsStep | g_sorcery/serialization.py:57-61 | an object encodes as the encoding of its one-step form, and raises TypeError when that form is missing or falsy |
| Serialization.EncodeEnvelope | g_sorcery/serialization.py:52-53 | an envelope dict encodes to the envelope of its encoded value, and fails when the value does |
| Serialization.EnvelopeFieldsEncode | g_sorcery/serialization.py:52-53 | every entry of an envelope encodes, and the encoded entries form the envelope of the encoded value |
| Serialization.FieldErrors | g_sorcery/serialization.py:80-82 | the set of errors from decoding the values of a dict is empty exactly when every value decodes |
| Serialization.DecodeFields | g_sorcery/serialization.py:80-81 | the decoded dict has the same keys, each value the decoding of the original |
| Serialization.DecodeItems | g_sorcery/serialization.py:83-84 | a decoded list has as many items as the list read |
| Serialization.DecodeUntagged | g_sorcery/serialization.py:64-86 | a raw tree with no python_class key anywhere decodes to itself |
| Serialization.DecodeItemsUntagged | g_sorcery/serialization.py:83-84 | a list of untagged trees decodes to itself |
| Serialization.DecodeEnvelopeEntries | g_sorcery/serialization.py:80-81 | the entries of an envelope decode, to the envelope of the decoded value |
| Serialization.DecodeEnvelope | g_sorcery/serialization.py:64-73 | an envelope is handed to the registered class's deserialize; an unknown module raises ImportError and an unknown class AttributeError |
| Serialization.StepDecodeMalformed | g_sorcery/serialization.py:69-72 | a tagged dict without the module or value key raises KeyError; a module name that is not a string raises AttributeError when imported; a class name that is not a string raises TypeError |
| Serialization.RoundTrip | g_sorcery/serialization.py:40-86 | a value whose objects are all registered and whose serialized forms decode back encodes, and decodes back to itself |
| Serialization.RoundTripItems | g_sorcery/serialization.py:54-55 | the same round trip for a list of such values |
| Serialization.SerializeOnlyReadsBackPlain | g_sorcery/serialization.py:35-36 | an object with serialize but no deserialize reads back as its plain serialized value, not as the object |
| Collections.ElistStr | g_sorcery/g_collections.py:42-46 | an empty elist prints as the empty string, a one-item elist as its item |
| Collections.ElistStrSplits | g_sorcery/g_collections.py:42-46 | splitting the printed elist at a one-character separator the items do not contain gives back the printed items |
| Collections.ElistValue | g_sorcery/g_collections.py:56-64 | a serializable_elist is a serializable object that iterates over exactly its items |
| Collections.DeserializeElist | g_sorcery/g_collections.py:77-79 | deserialize builds a serializable_elist; a non-dict raises TypeError and a dict without data raises KeyError |
| Collections.ElistSerializeRoundTrip | g_sorcery/g_collections.py:74-79 | deserialize inverts serialize |
| Collections.SerializableElist.constructor | g_sorcery/g_collections.py:56-61 | the new elist holds the given items and separator |
| Collections.SerializableElist.Append | g_sorcery/g_collections.py:71-72 | the item is appended at the end; the separator is kept |
| Collections.SerializableElist.AsValue | g_sorcery/g_collections.py:63-64 | the object iterates over exactly the items held |
| Collections.SerializableElist.Serialize | g_sorcery/g_collections.py:74-79 | what serialize returns deserializes back to this elist |
| Collections.SerializableElist.ToString | g_sorcery/g_collections.py:66-69 | a one-item elist prints as its item |
| Collections.PackageStrInjective | g_sorcery/g_collections.py:95-96 | with no '/' in the categories and no '-' in the versions, equal strings mean equal packages |
| Collections.PackageEqIsIdentity | g_sorcery/g_collections.py:98-101 | __eq__ holds exactly when the three fields agree |
| Collections.EqualPackagesHashEqually | g_sorcery/g_collections.py:98-104 | equal packages hash equally, whatever the string hash |
| Collections.HashKeyCollision | g_sorcery/g_collections.py:103-104 | two different packages can share the hash key, because the three fields are concatenated without separators |
| Collections.SerializePackage | g_sorcery/g_collections.py:106-107 | a package serializes to a list of three items |
| Collections.DeserializePackage | g_sorcery/g_collections.py:109-111 | a list whose length is not three raises TypeError |
| Collections.PackageSerializeRoundTrip | g_sorcery/g_collections.py:106-111 | deserialize inverts serialize for every package |
| Collections.PackageValue | g_sorcery/g_collections.py:84-111 | a Package is a serializable object whose value is its serialized list |
| Collections.CollectionsRegistry | g_sorcery/g_collections.py:77-111 | both Package and serializable_elist can be imported and deserialized |
| Collections.PackageCodecRoundTrip | g_sorcery/g_collections.py:106-111 | a package written as JSON reads back as the same package |
| Collections.ElistCodecRoundTrip | g_sorcery/g_collections.py:74-79 | a serializable_elist of round-tripping items written as JSON reads back as the same elist |
| Collections.AtomString | g_sorcery/g_collections.py:123-126 | the atom string is operator, category, "/" and package; when the version is non-empty, "-" and the version follow, and nothing else |
| Collections.DependencyValue | g_sorcery/g_collections.py:116-141 | a Dependency exposes its category and package, and serializes to the envelope of its atom string |
| FileSystem.HashOf | g_sorcery/fileutils.py:109-126 | the hash of a present file is md5 of its content; a missing file raises IOError |
| FileSystem.Pruned | g_sorcery/db_layout.py:227-232 | removing a tree keeps exactly the files outside it, unchanged |
| FileSystem.Rerooted | g_sorcery/fileutils.py:128-136 | every file of the source tree appears, with the same content, at its place in the destination, and nothing else appears |
| FileSystem.Disk.MakeDirs | g_sorcery/fileutils.py:47-48 | the directory is added; files are unchanged |
| FileSystem.Disk.WriteFile | g_sorcery/fileutils.py:101-106 | the one file is replaced; nothing else changes |
| FileSystem.Disk.RemoveTree | g_sorcery/db_layout.py:227-232 | the directory and everything below it are gone; the rest is unchanged |
| FileSystem.Disk.CopyAll | g_sorcery/fileutils.py:128-136 | the source tree is copied into the destination over what is there |
| FileSystem.Disk.HashFile | g_sorcery/fileutils.py:109-126 | the result is the hash of the file on disk |
| FileUtils.CheckKeys | g_sorcery/fileutils.py:56-58 | a dict passes exactly when it holds every mandatory key; otherwise FileJSONError |
| FileUtils.CheckMandatories | g_sorcery/fileutils.py:72-74 | the loop over the mandatory keys agrees with CheckKeys |
| FileUtils.EmptyContent | g_sorcery/fileutils.py:49-52 | the content of a new file maps exactly the mandatory keys, each to the empty string |
| FileUtils.FillMandatories | g_sorcery/fileutils.py:51-52 | the loop builds exactly the empty content |
| FileUtils.EmptyContentFacts | g_sorcery/fileutils.py:49-53 | the empty content passes the key check and encodes to itself |
| FileUtils.Stored | g_sorcery/fileutils.py:101-106 | the file holds JSON exactly when the content encodes |
| FileUtils.ReadContent | g_sorcery/fileutils.py:55-58 | an unparsable file raises ValueError; a successful read is the decoded tree and holds every mandatory key |
| FileUtils.WriteThenRead | g_sorcery/fileutils.py:68-99 | content that round-trips and holds the mandatory keys reads back as itself once written |
| FileUtils.ReadRejectsMissingKey | g_sorcery/fileutils.py:56-58 | a stored dict without one mandatory key makes the read raise FileJSONError |
| FileUtils.FileJson.Read | g_sorcery/fileutils.py:43-60 | the directory is created; a missing file is created with the empty content, which is returned; a present file is read unchanged and checked |
| FileUtils.FileJson.Write | g_sorcery/fileutils.py:68-77 | content lacking a mandatory key changes nothing and raises FileJSONError; otherwise the directory is created and the file holds the stored content |
| DbLayout.FileName | g_sorcery/db_layout.py:59-63 | the name is the base name, a dot and the suffix |
| DbLayout.FileNameInjective | g_sorcery/db_layout.py:59-63 | for suffixes without a dot, the file name determines the name and the suffix |
| DbLayout.FileNameConstants | g_sorcery/db_layout.py:21-27 | the database files are categories.json, manifest.json, metadata.json and packages.json |
| DbLayout.GetLayout | g_sorcery/db_layout.py:166-181 | mandatory files always include categories.json, plus metadata.json for every layout version but 0; formats are supported ones; a missing layout_version raises KeyError, other errors are DBLayoutError |
| DbLayout.GetLayoutAgrees | g_sorcery/db_layout.py:166-181 | the code as written and the corrected version succeed on the same metadata and agree when they do |
| DbLayout.GetLayoutUnknownVersion | g_sorcery/db_layout.py:180-181 | as written, layout version 2 raises TypeError when the message is built; the corrected version raises DBLayoutError |
| DbLayout.LegacyMetadataLayout | g_sorcery/db_layout.py:146-147 | the metadata assumed when there is no metadata file selects layout 0 (JSON, categories.json only) and has every mandatory key |
| DbLayout.MetadataOutcome | g_sorcery/db_layout.py:136-154 | a missing metadata file gives the legacy metadata; metadata that is read holds db_version, layout_version and category_format |
| DbLayout.ReadMetadata | g_sorcery/db_layout.py:136-154 | Metadata.read returns MetadataOutcome of the files before the call, creates the directory, and writes no file |
| DbLayout.CategoryNames | g_sorcery/db_layout.py:115 | iterating the categories gives exactly the keys of a dict; anything else raises |
| DbLayout.ManifestErrors | g_sorcery/db_layout.py:88-91 | the error list holds exactly the entries whose stored hash differs from md5 of the file; a listed file that is missing raises IOError |
| DbLayout.CheckOutcome | g_sorcery/db_layout.py:74-96 | a check that gets through has read both manifest.json and categories.json |
| DbLayout.CompareHashes | g_sorcery/db_layout.py:88-96 | the hash loop computes ManifestErrors |
| DbLayout.CheckManifestFile | g_sorcery/db_layout.py:74-96 | Manifest.check computes CheckOutcome on the files before the call; the only change is creating an empty manifest if it is missing |
| DbLayout.HashesOf | g_sorcery/db_layout.py:109-122 | the manifest maps exactly the given files that exist, each to md5 of its content |
| DbLayout.DigestOutcome | g_sorcery/db_layout.py:98-124 | without categories.json among the mandatory files it raises DBLayoutError; a manifest always lists categories.json and every mandatory file |
| DbLayout.HashMandatoryFiles | g_sorcery/db_layout.py:111-113 | a missing mandatory file raises IOError; otherwise every mandatory file is hashed |
| DbLayout.HashCategoryFiles | g_sorcery/db_layout.py:115-122 | a category without a directory raises DBStructureError; otherwise every file below the category directories is hashed under its relative path |
| DbLayout.DigestOutcomeReadFails | g_sorcery/db_layout.py:106-107 | an error reading categories.json is the error of digest |
| DbLayout.DigestOutcomeHashFails | g_sorcery/db_layout.py:111-113 | a missing mandatory file makes digest raise IOError |
| DbLayout.DigestOutcomeLater | g_sorcery/db_layout.py:115-122 | once the mandatory files are hashed, digest fails on categories that are not a dict or lack a directory, and otherwise adds the category files' hashes |
| DbLayout.Digest | g_sorcery/db_layout.py:98-124 | Manifest.digest computes DigestOutcome and writes it as manifest.json; on error no file is written |
| DbLayout.FreshManifestChecks | g_sorcery/db_layout.py:74-96 | a manifest listing categories.json and correct hashes passes the check with no errors |
| DbLayout.DigestThenCheck | g_sorcery/db_layout.py:74-124 | right after digest, Manifest.check finds no errors |
| DbLayout.ManifestSane | g_sorcery/db_layout.py:219-225 | check_manifest passes exactly when the check finds no errors and otherwise passes on the check's error |
| DbLayout.ReadHead | g_sorcery/db_layout.py:241-249 | a read that gets past the metadata and the categories file has passed the manifest check, has a valid layout and has categories that are a dict |
| DbLayout.CategoryOutcome | g_sorcery/db_layout.py:252-260 | a category without a directory raises DBLayoutError; packages that are read are non-empty and come from that category's packages file |
| DbLayout.CategoryPackages | g_sorcery/db_layout.py:251-262 | the packages dict has exactly the categories as keys, each holding what its file reads |
| DbLayout.CategoryFiles | g_sorcery/db_layout.py:279-281 | writing the categories puts exactly one packages file per category, holding its stored packages |
| DbLayout.DBLayout.CheckManifest | g_sorcery/db_layout.py:219-225 | the check's outcome on the files before the call; only a missing manifest is created |
| DbLayout.DBLayout.Clean | g_sorcery/db_layout.py:227-232 | the directory and everything below it are removed; nothing else changes |
| DbLayout.DBLayout.ReadCategory | g_sorcery/db_layout.py:253-260 | one category's packages, as CategoryOutcome says; no existing file is changed |
| DbLayout.DBLayout.ReadCategories | g_sorcery/db_layout.py:251-262 | succeeds exactly when every category reads; the result is CategoryPackages; an error is the error of some category |
| DbLayout.DBLayout.Read | g_sorcery/db_layout.py:234-262 | the head's error, or the metadata, the categories and every category's packages; fails exactly when some category fails |
| DbLayout.DBLayout.WriteCategory | g_sorcery/db_layout.py:280-281 | a category missing from the packages raises KeyError (TypeError when packages is not a dict) and changes nothing; otherwise its packages file is written |
| DbLayout.DBLayout.WriteCategories | g_sorcery/db_layout.py:279-281 | succeeds exactly when every category has packages that encode; then exactly the category files and directories are added |
| DbLayout.DBLayout.WriteTop | g_sorcery/db_layout.py:272-277 | metadata.json (when the layout keeps it) and categories.json are written, and the write succeeds exactly when both pass |
| DbLayout.DBLayout.Write | g_sorcery/db_layout.py:264-283 | a bad layout changes nothing; success needs every file to be writable, and is guaranteed when they are and categories.json reads back as written; on success the files other than the manifest are exactly the old files outside the directory plus the staged files, the directories are exact, the manifest checks, and nothing outside the directory changed |
| DbLayout.StagedDigests | g_sorcery/db_layout.py:98-124 | on the staged files, digest succeeds whenever categories.json reads back as written: every listed file and category directory is present |
| DbLayout.DBLayout.WriteStaged | g_sorcery/db_layout.py:270-281 | succeeds exactly when the metadata (when kept) holds its keys and encodes, categories.json encodes and is a dict, and every category has packages that encode; then the files are exactly the old files outside the directory plus the top-level and packages files, and the directories are exact |
| DbLayout.MetadataAfterWriteLayout | g_sorcery/db_layout.py:166-181 | the metadata read back after a write selects the same layout as the metadata written |
| DbLayout.WriteThenReadDb | g_sorcery/db_layout.py:234-283 | after write, read passes the manifest check and gives back the categories and every category's packages, provided they round-trip and are non-empty |
| DbLayout.TamperDetected | g_sorcery/db_layout.py:74-96 | changing a file the manifest lists to content with another hash makes check_manifest raise IntegrityError |
| PackageDb.WithCategory | g_sorcery/package_db.py:274-284 | exactly the one category is added or replaced, with the description or an empty dict when it is falsy; packages are untouched; consistency is kept |
| PackageDb.WithCommonData | g_sorcery/package_db.py:287-301 | an unknown category raises InvalidKeyError; otherwise only that category's common data changes and every stored version is kept |
| PackageDb.CommonData | g_sorcery/package_db.py:304-320 | an unknown category raises InvalidKeyError; a category without packages has empty common data |
| PackageDb.WithPackage | g_sorcery/package_db.py:323-350 | an empty category, name or version raises DBError and an unknown category InvalidKeyError; otherwise exactly that version is stored, and every other version and the common data are kept |
| PackageDb.InCategory | g_sorcery/package_db.py:363-380 | an empty or unknown category raises InvalidKeyError; otherwise true exactly when the name is stored in the category |
| PackageDb.PackageNames | g_sorcery/package_db.py:383-399 | the names listed are exactly those in_category accepts |
| PackageDb.CatpkgNames | g_sorcery/package_db.py:402-413 | exactly the strings category/name of stored packages |
| PackageDb.PackageVersions | g_sorcery/package_db.py:416-434 | an unknown category or package raises InvalidKeyError; otherwise exactly the stored versions |
| PackageDb.AllPackages | g_sorcery/package_db.py:437-449 | exactly the packages whose version is stored |
| PackageDb.PackageDescription | g_sorcery/package_db.py:452-466 | a package not stored raises KeyError; otherwise its data with the category's common data laid over it |
| PackageDb.IteratedAreDescriptions | g_sorcery/package_db.py:50-136 | iterating the database yields exactly the pairs of a package and its get_package_description |
| PackageDb.IteratedCoverAllPackages | g_sorcery/package_db.py:437-449 | the iterator and list_all_packages cover the same packages |
| PackageDb.WithPackageVisible | g_sorcery/package_db.py:323-466 | a package just added is in its category, among its versions and all packages, and is described by its data under the common data |
| PackageDb.CommonDataRoundTrip | g_sorcery/package_db.py:287-320 | common data that was set reads back, and every package description of the category now reflects it |
| PackageDb.CheckPreferences | g_sorcery/package_db.py:145-157 | preferences are accepted exactly when db version, layout version and format are supported and layout 0 goes with db version 0; the layout 0 check comes first |
| PackageDb.MetadataValue | g_sorcery/package_db.py:237-239 | the metadata written selects the preferred format, holds the mandatory keys, and keeps a metadata file exactly for layout 1 |
| PackageDb.VersionsValue | g_sorcery/package_db.py:241-251 | the versions are stored as a dict with the same keys and data |
| PackageDb.PackagesValue | g_sorcery/package_db.py:241-251 | the packages are stored as a dict with the same names, each holding its versions |
| PackageDb.CategoryValue | g_sorcery/package_db.py:248-249 | structure 1 stores a category as a dict of exactly common_data and packages |
| PackageDb.Folded | g_sorcery/package_db.py:243-247 | structure 0 stores every version with the category's common data laid over it, with the same names and versions |
| PackageDb.StructureValue | g_sorcery/package_db.py:241-251 | the dict handed to the layout has the categories as keys, folded for structure 0 and as common_data and packages for structure 1 |
| PackageDb.ParseVersions | g_sorcery/package_db.py:263-267 | a dict of dicts becomes the versions with the same keys; anything else is rejected with TypeError |
| PackageDb.ParsePackages | g_sorcery/package_db.py:263-267 | a dict of version dicts becomes the packages with the same names |
| PackageDb.ParseCategory | g_sorcery/package_db.py:268-269 | a structure 1 category has common_data and packages, read back as they are |
| PackageDb.ConvertCategory | g_sorcery/package_db.py:263-271 | structure 0 gives empty common data around the packages, structure 1 reads common_data and packages, and any other version raises DBStructureError |
| PackageDb.ConvertedDatabase | g_sorcery/package_db.py:263-271 | succeeds exactly when the version is 0 or 1 and every category converts; the database has the same categories |
| PackageDb.VersionsRoundTrip | g_sorcery/package_db.py:241-267 | versions written are read back unchanged |
| PackageDb.PackagesRoundTrip | g_sorcery/package_db.py:241-267 | packages written are read back unchanged |
| PackageDb.StructureOneRoundTrip | g_sorcery/package_db.py:248-269 | a structure 1 database written is read back unchanged |
| PackageDb.CategoryRoundTrip | g_sorcery/package_db.py:248-269 | a structure 1 category written is read back unchanged |
| PackageDb.LegacyImage | g_sorcery/package_db.py:241-267 | what structure 0 reads back: the same categories, with empty common data and the folded packages |
| PackageDb.StructureZeroRoundTrip | g_sorcery/package_db.py:241-267 | a structure 0 database written is read back as its legacy image |
| PackageDb.LegacyImageKeepsDescriptions | g_sorcery/package_db.py:241-267 | the legacy image describes every package exactly as the original does |
| PackageDb.FoldedInPlace | g_sorcery/package_db.py:241-247 | structure 0 writing updates the in-memory data too: the common data is laid over every version and kept |
| PackageDb.FoldedInPlaceKeepsDescriptions | g_sorcery/package_db.py:241-247 | that in-place update changes no package description |
| PackageDb.StoreRead | g_sorcery/package_db.py:257-271 | a successful read has passed the layout's head checks, takes the categories read, and holds a database with the same categories |
| PackageDb.StoreFrom | g_sorcery/package_db.py:261-271 | a read succeeds exactly when db_version is present and the packages convert, and then holds the converted packages under the categories read |
| PackageDb.StoreReadConsistent | g_sorcery/package_db.py:257-271 | a database that is read has packages only for known categories |
| PackageDb.ConvertPackages | g_sorcery/package_db.py:263-271 | the conversion loop computes ConvertedDatabase and raises DBStructureError for unsupported versions |
| PackageDb.DbVersionAfterWrite | g_sorcery/package_db.py:237-263 | the metadata read back after a write holds the preferred db version |
| PackageDb.PackageDbWriteThenRead | g_sorcery/package_db.py:230-271 | after write, read gives back the same database, as its legacy image for structure 0, provided the contents round-trip and no category is empty |
| PackageDb.WriteThenReadDescriptions | g_sorcery/package_db.py:230-271 | after write and read every package has the description it had before |
| PackageDb.MaxVersion | g_sorcery/package_db.py:487-494 | the result is a listed version that no other listed version is newer than, and is newer than every version listed before it |
| PackageDb.ListKeys | g_sorcery/package_db.py:488 | the list holds each key exactly once |
| PackageDb.ApplyEdit | g_sorcery/package_db.py:274-350 | one database edit made by a generator keeps the database consistent |
| PackageDb.ApplyEditsConsistent | g_sorcery/package_db.py:274-350 | a whole run of edits keeps the database consistent |
| PackageDb.ApplyEditsKeepCategories | g_sorcery/package_db.py:274-284 | edits never remove a category, and every category added is present afterwards |
| PackageDb.ApplyEditsStops | g_sorcery/package_db.py:287-350 | once an edit raises, the later edits are not applied |
| PackageDb.PackageDB.Contents | g_sorcery/package_db.py:177-182 | the object's two dicts as a store |
| PackageDb.PackageDB.constructor | g_sorcery/package_db.py:139-170 | accepted preferences are kept, the layout is on the directory and the database starts empty |
| PackageDb.PackageDB.Create | g_sorcery/package_db.py:139-170 | construction succeeds exactly when the preferences pass, raising their error otherwise; the new database is empty |
| PackageDb.PackageDB.ResetDb | g_sorcery/package_db.py:177-182 | both dicts are emptied |
| PackageDb.PackageDB.Clean | g_sorcery/package_db.py:222-227 | the database directory is removed and the dicts are emptied |
| PackageDb.PackageDB.AddCategory | g_sorcery/package_db.py:274-284 | the new state is WithCategory of the old |
| PackageDb.PackageDB.SetCommonData | g_sorcery/package_db.py:287-301 | the new state is WithCommonData of the old; on error nothing changes |
| PackageDb.PackageDB.AddPackage | g_sorcery/package_db.py:323-350 | the new state is WithPackage of the old; on error nothing changes |
| PackageDb.PackageDB.ApplyOne | g_sorcery/package_db.py:274-350 | one generator edit, applied as ApplyEdit says |
| PackageDb.PackageDB.Apply | g_sorcery/package_db.py:561-564 | the generator's edits, applied in order as ApplyEdits says, stopping at the first error |
| PackageDb.PackageDB.Regenerate | g_sorcery/package_db.py:561-564 | a failed generation or a failing edit is the error; when the edits apply and the filled store is writable the call succeeds; on success the database is exactly the edits applied to an empty database (folded for structure 0), it is consistent, the directory holds exactly what write stages for that store plus a manifest that checks |
| PackageDb.PackageDB.FoldCommonData | g_sorcery/package_db.py:241-247 | the categories are kept and the database becomes FoldedInPlace of the old |
| PackageDb.PackageDB.Write | g_sorcery/package_db.py:230-251 | succeeds whenever the store's metadata, categories and structure are writable and categories.json reads back; success leaves exactly the layout's files for them plus a checking manifest and changes nothing outside the directory; for structure 0 the in-memory data is folded |
| PackageDb.PackageDB.Read | g_sorcery/package_db.py:257-271 | a head error changes nothing; the read succeeds exactly when StoreRead does and then holds its store |
| PackageDb.PackageDB.Adopt | g_sorcery/package_db.py:261-271 | the categories are taken first; the database is replaced exactly when db_version is present and the packages convert |
| PackageDb.PackageDB.Sync | g_sorcery/package_db.py:185-219 | an unknown method raises SyncError and changes nothing; a staged tree whose manifest fails changes nothing local; otherwise the database is cleaned, the staged tree copied in and checked |
| PackageDb.PackageDB.GetMaxVersion | g_sorcery/package_db.py:469-494 | lookup errors raise InvalidKeyError, a package without versions raises IndexError; a known package with versions always succeeds, with a version that no stored version is newer than |
| PackageDb.TranslateStep | g_sorcery/package_db.py:700-705 | a config whose table holds the key gives its entry; a table without it keeps the running result |
| PackageDb.TranslatedLastMatch | g_sorcery/package_db.py:684-706 | with well-formed configs convert succeeds; the last config that maps the value decides, and the value is kept when none does |
| PackageDb.Translate | g_sorcery/package_db.py:699-706 | the loop over the configs computes Translated |
| PackageDb.Convert | g_sorcery/package_db.py:684-706 | convert starts from the value itself |
| PackageDb.ConvertDependency | g_sorcery/package_db.py:708-746 | a truthy external mapping goes to the external hook or is dropped when external ones are not kept; otherwise the internal hook gets the dependency |
| PackageDb.ConvertDependencyCases | g_sorcery/package_db.py:721-734 | the external mapping is empty when no config maps the dependency, and that of the last config that maps it otherwise |
| PackageDb.InConfigsIff | g_sorcery/package_db.py:748-768 | with well-formed configs, in_config is true exactly when some config's list holds the value |
| PackageDb.InConfig | g_sorcery/package_db.py:748-768 | the loop, with its early break, computes InConfigs |
| PackageDb.WithDefault | g_sorcery/package_db.py:650-655 | a dict gets the default only when it lacks the key |
| PackageDb.DecodeUri | g_sorcery/package_db.py:641-656 | a string becomes a dict with uri, the parser, open_file true and open_mode "r"; a dict keeps its entries and gets the missing defaults; other values raise TypeError |
| PackageDb.DecodeDownloadUries | g_sorcery/package_db.py:629-657 | succeeds exactly when every entry decodes, giving the decoded entries in order; an error is that of the first entry that fails |
| PackageDb.GeneratePackageDb | g_sorcery/package_db.py:515-565 | bad preferences raise and touch no file; the database lies in directory/repository/db; the repository config is loaded first and the backend config from the files it leaves, and the first failing load is the error; without generation the database is empty and the disk holds the two loaded configs; with it, the call succeeds when process's edits apply and the filled store is writable, process receives the two configs, and the database and directory are exactly the outcome of its edits |
| PackageDb.LoadConfig | g_sorcery/package_db.py:548-559 | the result and the new files are those of the config outcome: a given config is checked, written and returned; otherwise the present file's content is read and checked, and a missing file is created holding the empty config; the directory is created unless the given config lacks a mandatory key |
| PackageDb.ConfigOutcome | g_sorcery/package_db.py:548-559 | a given config is the config when it loads; otherwise the present file's read content, or the empty content for a missing file |
| PackageDb.ConfigFiles | g_sorcery/package_db.py:548-559 | only the config's own file can change: a given config with its keys is stored there; a present file is left alone when no config is given |
| PackageDb.GivenConfigReadsBack | g_sorcery/package_db.py:548-559 | a config given once, holding its keys and round-tripping, is what a later call without a config reads back, and that later call changes no file |
| Backend.DependencyVersions | g_sorcery/backend.py:415-416 | list_package_versions on a dependency's category and package; a non-string field raises TypeError and the only other error is InvalidKeyError |
| Backend.ItemTargets | g_sorcery/backend.py:413-420 | the packages a dependency entry stands for are stored packages |
| Backend.Targets | g_sorcery/backend.py:412-420 | a package's dependency targets are stored packages and include every entry's targets |
| Backend.SolveDependencies | g_sorcery/backend.py:370-428 | a solved package changes nothing; one in progress raises DependencyError; one not found is skipped; otherwise the result is the least closed set of found packages that holds what was solved and the package, and the in-progress set is restored. DependencyError is raised only when following dependencies closes a cycle or reaches a package in progress; any other error comes from an ill-formed package reachable from this one; without either the call succeeds |
| Backend.SolveItem | g_sorcery/backend.py:413-423 | every version of one dependency entry is solved; an entry whose versions raise InvalidKeyError is skipped and leaves the solved set as it was, so InvalidKeyError never escapes; DependencyError comes only from a cycle from one of the entry's packages, other errors only from an ill-formed entry or package; without either it succeeds |
| Backend.MatchingCategories | g_sorcery/backend.py:341-347 | the categories holding the bare name; a category named by the empty string makes in_category raise InvalidKeyError |
| Backend.GetDependencies | g_sorcery/backend.py:329-368 | more than one '/' raises DependencyError; a bare name must be in exactly one category; the result is the least closed set holding every version of the package. DependencyError otherwise comes only from a cycle from one of its versions, and the call succeeds whenever the name resolves to a listed package none of whose versions reaches a cycle or an ill-formed package |
| Backend.SolveVersions | g_sorcery/backend.py:364-368 | every listed version is solved from scratch and the results joined: the least closed set holding all versions; DependencyError only from a cycle from some version, other errors only from an ill-formed package reachable from one, and success when neither exists |
| Backend.UnpackAsWritten | g_sorcery/backend.py:418-420 | the caller's tuple unpacking succeeds on a pair; a bare set of any size other than two raises ValueError; a bare set of two unpacks into two packages, whose next use raises |
| Backend.CycleExtends | g_sorcery/backend.py:393-396 | a cycle closed from a dependency while the package is in progress is a cycle closed from the package |
| Backend.WellFormedExtends | g_sorcery/backend.py:412-420 | an ill-formed package reachable from a dependency is reachable from the package |
| Backend.EntryFailed | g_sorcery/backend.py:413-423 | the error of one dependency entry, lifted to the package: a cycle from the entry's packages is one from the package, and an ill-formed entry or reachable package makes the package ill-formed from itself |
| Backend.RevisitBreaksCaller | g_sorcery/backend.py:391-392 | as written, reaching an already-solved package again returns the bare set, and the caller's unpacking raises ValueError |
| Backend.RevisitOnRepeatedEntry | g_sorcery/backend.py:391-392 | in a store where a lists the dependency b twice and b has none, solving the first entry solves exactly b, so the second entry reaches b as solved: as written the caller's unpacking of the bare set raises ValueError, while the corrected solver leaves the solved set unchanged |
| Backend.SingleTargetEntry | g_sorcery/backend.py:413-420 | an entry standing for one found package without dependencies solves exactly that package, and solving it again changes nothing |
| Backend.SolvedClosed | g_sorcery/backend.py:412-426 | once every existing target of the package's dependencies is solved, adding the package keeps the solved set closed under dependencies |
| Metadata.Appended | g_sorcery/metadata.py:126 | children are added after the existing ones, in order, and nothing is added when producing them raises |
| Metadata.TagElements | g_sorcery/metadata.py:92-112 | a tag missing from the values raises XMLGeneratorError when required and adds nothing otherwise; every element added has the tag's name |
| Metadata.PresentTag | g_sorcery/metadata.py:106-112 | a present tag adds one element for its value, or, when multiple, one element per entry of its value, in order |
| Metadata.SingleElements | g_sorcery/metadata.py:109-110 | one element per entry, in order, failing exactly when an entry fails |
| Metadata.SingleElement | g_sorcery/metadata.py:114-137 | the element has the tag's name; with an attribute it takes item 0 as the attribute and item 1 as the value; a tag without subtags has the value as its text; a tag with subtags takes the content's text entry when there is one and no text otherwise, its children are those of its subtags in order, and it fails exactly when the text lookup or a subtag fails |
| Metadata.Children | g_sorcery/metadata.py:134-135 | the subtags are added in order and succeed exactly when every subtag does |
| Metadata.Generated | g_sorcery/metadata.py:75-90 | the tree succeeds exactly when every schema tag does; the root has the outer name, no attributes and no text |
| Metadata.ChildrenNames | g_sorcery/metadata.py:134-135 | every child comes from one of the subtags |
| Metadata.GeneratedChildren | g_sorcery/metadata.py:87-90 | every child of the root comes from a schema tag, and with distinct tag names the children follow the schema's order |
| Metadata.ChildrenInSchemaOrder | g_sorcery/metadata.py:134-135 | with distinct tag names, the children follow the order of the subtags |
| Metadata.Generate | g_sorcery/metadata.py:75-90 | the generation loop computes Generated |
| Metadata.AddTag | g_sorcery/metadata.py:92-112 | add_tag appends exactly the tag's elements to the parent |
| Metadata.AddSingleTag | g_sorcery/metadata.py:114-137 | add_single_tag appends exactly the one element |
| Metadata.AddSubtags | g_sorcery/metadata.py:130-135 | the subtag loop appends exactly the children |
| Metadata.GeneratorSchema | g_sorcery/metadata.py:224-227 | an empty schema is replaced by the default one |
| Metadata.Insert | g_sorcery/metadata.py:247 | list.insert puts the item at the index, or at the end past it |
| Metadata.MetadataLines | g_sorcery/metadata.py:243-247 | the DOCTYPE line comes second, after the first printed line, and the other lines follow in order without a final empty one |
| Metadata.GenerateMetadata | g_sorcery/metadata.py:229-278 | the metadata succeeds exactly when the tree does, and is its printed lines with the DOCTYPE inserted |
| Metadata.MetadataLinesRoundTrip | g_sorcery/metadata.py:243-247 | without the DOCTYPE line, the lines joined with newlines give the printed text back, less a final newline |
| Metadata.RequiredTagMissing | tests/test_metadata.py:56 | values without the required tag raise XMLGeneratorError |
| Metadata.OnlyGivenTags | tests/test_metadata.py:57-59 | only the given tag appears |
| Metadata.NestedTags | tests/test_metadata.py:60-65 | a dict value fills the subtags, in schema order |
| Metadata.RepeatedTag | tests/test_metadata.py:66-70 | a multiple tag gives one element per list entry |
| Metadata.AttributeTag | tests/test_metadata.py:71-75 | an attribute tag takes the attribute and the text from each pair |
| Metadata.AbsentTag | g_sorcery/metadata.py:101-105 | an optional tag missing from the values adds no child |
| Metadata.LeafTag | g_sorcery/metadata.py:130-137 | a single tag without subtags becomes one element whose text is the value |
| CtanDb.LeadLen | gs_ctan/ctan_db.py:34-35 | the length of the opening block of non-empty lines, stopping at the first empty line |
| CtanDb.RunsNonEmpty | gs_ctan/ctan_db.py:34-35 | every group kept by groupby is a non-empty block of non-empty lines |
| CtanDb.RunsFlatten | gs_ctan/ctan_db.py:34-35 | the groups hold exactly the non-empty lines, in their order |
| CtanDb.RunsSeparated | gs_ctan/ctan_db.py:33-35 | an empty line separates entries: the groups of a text cut at a blank line are the groups of each part |
| CtanDb.RunOfBlock | gs_ctan/ctan_db.py:34-35 | a block without empty lines is one entry |
| CtanDb.PackageEntries | gs_ctan/ctan_db.py:38-39 | selecting the Package entries raises IndexError exactly when some entry has a single line |
| CtanDb.PackageEntriesMembers | gs_ctan/ctan_db.py:38-39 | the entries kept are exactly those whose second line is "category Package" |
| CtanDb.PackageEntriesConcat | gs_ctan/ctan_db.py:38-39 | the selection keeps the order of the entries |
| CtanDb.WordsOf | gs_ctan/ctan_db.py:52 | splitting a line at its spaces gives at least one word |
| CtanDb.KeyValueRoundTrip | gs_ctan/ctan_db.py:52-71 | a line is its key, a space and its value |
| CtanDb.Pair | gs_ctan/ctan_db.py:57 | an attribute item needs exactly one '=', else ValueError; its key and value rebuild it |
| CtanDb.Attributes | gs_ctan/ctan_db.py:56-58 | the only error of a files line's attributes is ValueError |
| CtanDb.AttributesOk | gs_ctan/ctan_db.py:56-58 | the attributes are accepted exactly when every item is key=value |
| CtanDb.AttributesLastWins | gs_ctan/ctan_db.py:56-58 | every item's key is stored, with the value of the last item that has it |
| CtanDb.StepWellKeyed | gs_ctan/ctan_db.py:51-73 | one line keeps the entry's shape: files keys hold files records, depend holds a list, other keys hold text |
| CtanDb.StepErrors | gs_ctan/ctan_db.py:53-61 | a line fails exactly when it is a files line with a bad item (ValueError) or a continuation line with no files key before it (KeyError) |
| CtanDb.RunWellKeyed | gs_ctan/ctan_db.py:51-73 | the whole loop over the lines keeps that shape |
| CtanDb.DependsInOrder | gs_ctan/ctan_db.py:62-66 | the depend lines accumulate into one list, in input order |
| CtanDb.ContinuationsAppend | gs_ctan/ctan_db.py:60-61 | continuation lines append their values to the current files record, in order |
| CtanDb.FilesBlock | gs_ctan/ctan_db.py:53-61 | a files line stores its attributes with a files list holding the values of the continuation lines after it |
| CtanDb.NewKeyStartsValue | gs_ctan/ctan_db.py:70-73 | a text key other than the previous one starts a new value and clears the current files key |
| CtanDb.SameKeyConcatenates | gs_ctan/ctan_db.py:68-69 | lines repeating the previous key append their values to its text, each after one space |
| CtanDb.KeyRunValue | gs_ctan/ctan_db.py:67-73 | a run of lines with one text key gives that key their values joined with spaces |
| CtanDb.PreviousKeySurvives | gs_ctan/ctan_db.py:53-66 | files, continuation and depend lines leave previous_key as it was |
| CtanDb.WordLines | gs_ctan/ctan_db.py:51-52 | every line of an entry is split at its spaces |
| CtanDb.ParseEntry | gs_ctan/ctan_db.py:47-74 | the loop over one entry's lines computes Parse |
| CtanDb.ParsedEntriesPointwise | gs_ctan/ctan_db.py:47-76 | one parsed entry per selected entry, in order, exactly when every entry parses |
| CtanDb.ParsedWellKeyed | gs_ctan/ctan_db.py:47-76 | every parsed entry has the shape the loop keeps |
| CtanDb.ParseData | gs_ctan/ctan_db.py:28-76 | parse_data computes Parsed: the entries are grouped, selected and each parsed |
| CtanDb.TextOf | gs_ctan/ctan_db.py:84-122 | a missing key raises KeyError; a present text field is returned |
| CtanDb.RecordFallbacks | gs_ctan/ctan_db.py:84-122 | name is required; description is shortdesc else name, filtered; longdescription is longdesc filtered else the description; version is catalogue-version else revision; license is catalogue-license else "unknown"; the source is a CTAN zip exactly when catalogue-ctan is there |
| CtanDb.RecordAllowed | gs_ctan/ctan_db.py:88-100 | both descriptions hold only characters the filter lets through |
| CtanDb.ParsedRecord | gs_ctan/ctan_db.py:84-107 | for a parsed entry, a record exists exactly when name and catalogue-version or revision are there; otherwise KeyError |
| CtanDb.RecordKeysAreTextKeys | gs_ctan/ctan_db.py:84-122 | each key process_data reads is one the parser stores as text |
| CtanDb.KeyErrorsOnly | gs_ctan/ctan_db.py:84-107 | when the keys read are all text, only a missing key can fail |
| CtanDb.RecordsPointwise | gs_ctan/ctan_db.py:82-122 | one record per entry, in order, exactly when every entry has one |
| CtanDb.ProcessData | gs_ctan/ctan_db.py:78-122 | dev-tex is added as the only change to the database; a missing tlpdb file raises KeyError; otherwise the record of every entry |
| Descriptions.Filtered | gs_ctan/ctan_db.py:88-96 | filtering never lengthens a string |
| Descriptions.FilteredAllowed | gs_ctan/ctan_db.py:88-96 | the result holds only allowed characters, and a string of allowed characters is kept as it is |
| Descriptions.FilteredConcat | gs_ctan/ctan_db.py:96 | filtering distributes over concatenation |
| Descriptions.FilteredCounts | gs_ctan/ctan_db.py:88-96 | every allowed character keeps its count and no other character survives |
| Descriptions.FilteredIdempotent | gs_ctan/ctan_db.py:96 | filtering twice is filtering once |
| Descriptions.RangeEndsDropped | gs_ctan/ctan_db.py:88-89 | the exclusive range ends drop 'z', 'Z' and '9' while 'y', 'Y' and '8' pass |
| ElpaDb.VersionRoundTrip | gs_elpa/elpa_db.py:83-84 | splitting the joined version at '.' gives back each component's decimal text |
| ElpaDb.VersionEmpty | gs_elpa/elpa_db.py:83-84 | the version is empty exactly when there are no components |
| ElpaDb.InternalDependency | gs_elpa/elpa_db.py:118-130 | an internal dependency is the package of that name in app-emacs, and is truthy; g_elpa/elpa_db.py lines 93-94 are the same code |
| ElpaDb.KeptAllMembers | gs_elpa/elpa_db.py:95-99 | the list keeps exactly the truthy converted dependencies |
| ElpaDb.DependenciesOk | gs_elpa/elpa_db.py:93-99 | with well-formed external tables, converting the dependencies cannot fail |
| ElpaDb.DependenciesMembers | gs_elpa/elpa_db.py:93-99 | the list holds exactly the internal dependencies of the names that are not external |
| ElpaDb.InternalIff | gs_elpa/elpa_db.py:96-97 | a name no config lists as external is internal; otherwise the last config that lists it decides, by the falsity of its entry |
| ElpaDb.EntryRecordAdded | gs_elpa/elpa_db.py:77-116 | an added entry's record is its app-emacs package with its properties |
| ElpaDb.PropertiesFields | gs_elpa/elpa_db.py:101-115 | the properties have exactly the eleven keys; both descriptions are the filtered description; dependencies, depend and rdepend are one list joined with newline-tab; homepage and repo_uri are the repository URI; realname, eclasses and maintainer are as fixed |
| ElpaDb.EntryExcluded | gs_elpa/elpa_db.py:80-81 | an entry some config excludes is skipped; any other entry is added |
| ElpaDb.IngestStepChanges | gs_elpa/elpa_db.py:76-116 | one entry leaves the categories as they were, keeps the database consistent, and changes only the version of its own package |
| ElpaDb.IngestedCategories | gs_elpa/elpa_db.py:76-116 | the loop leaves the categories as they were and keeps the database consistent |
| ElpaDb.IngestedChanges | gs_elpa/elpa_db.py:76-116 | every version the loop changes belongs to an added entry's package |
| ElpaDb.IngestedStores | gs_elpa/elpa_db.py:76-116 | after the loop, an added entry that no later entry overrides is stored with its properties |
| ElpaDb.IngestedSucceeds | gs_elpa/elpa_db.py:76-116 | the loop succeeds exactly when every entry is excluded or has a name and a version |
| ElpaDb.IngestStepSucceeds | gs_elpa/elpa_db.py:77-116 | one entry succeeds exactly when it is excluded or has a name and a version |
| ElpaDb.IngestStepOf | gs_elpa/elpa_db.py:80-116 | an excluded entry leaves the database as it was; an added one goes through add_package |
| ElpaDb.EntryRecordOutcome | gs_elpa/elpa_db.py:77-115 | with well-formed configs an entry always gives an outcome: nothing exactly when it is excluded, else its app-emacs package |
| ElpaDb.EntryRecordCases | gs_elpa/elpa_db.py:80-115 | an excluded entry gives nothing; any other gives its package and properties |
| ElpaDb.ExcludedUntouched | gs_elpa/elpa_db.py:80-81 | no version of an excluded package changes |
| ElpaDb.ProcessedCategories | gs_elpa/elpa_db.py:56-63 | process_data leaves the database as it was or adds app-emacs to it; it succeeds only with an archive-contents file whose head is 1, and a different head raises SyncError with the database unchanged |
| ElpaDb.ConvertDependencies | gs_elpa/elpa_db.py:93-99 | the loop over the dependencies computes Dependencies |
| ElpaDb.Record | gs_elpa/elpa_db.py:77-115 | the body of the loop computes EntryRecord |
| ElpaDb.ProcessData | gs_elpa/elpa_db.py:46-116 | the method's new database and outcome are Processed of the old one; g_elpa/elpa_db.py lines 34-91 are the same code |
| ElpaDb.Ingest | gs_elpa/elpa_db.py:76-116 | the loop over the entries computes Ingested |
| DbTool.RewriteStep | gs_db_tool/gs_db_tool.py:107-109 | one add_package call in the loop succeeds exactly when the package can be added, and then extends the rewritten part by that package |
| DbTool.Rewrite | gs_db_tool/gs_db_tool.py:107-109 | the loop over every package succeeds exactly when every package can be added back, and then leaves the database rewritten by the edit; the only errors are DBError and InvalidKeyError |
| DbTool.Transform | gs_db_tool/gs_db_tool.py:57-65 | transform_db reads the database, applies the edit and writes exactly what it holds; it succeeds when the read succeeds, the edit applies and the result is writable; a failing edit leaves the files on disk as they were |
| DbTool.RenamedMoves | gs_db_tool/gs_db_tool.py:138-140 | the value of the old name moves to the new name and every other key keeps its value; a record without the old name is kept |
| DbTool.RenamedBack | gs_db_tool/gs_db_tool.py:138-140 | renaming back undoes a rename onto a fresh name |
| DbTool.RenameVar | gs_db_tool/gs_db_tool.py:132-141 | rename_var writes exactly the database read from disk with every record renamed, and succeeds when the read succeeds, every package can be added back and the result is writable |
| DbTool.AddVar | gs_db_tool/gs_db_tool.py:87-109 | add_var with a non-empty value writes exactly the database with that value set in every record; without one it writes the database back as read; it succeeds when the read succeeds, the edit applies and the result is writable |
| DbTool.RewrittenVersions | gs_db_tool/gs_db_tool.py:137-141 | rewriting keeps the categories, the common data and the set of packages, and stores for each version the edit of its merged view |
| DbTool.RenameVarView | gs_db_tool/gs_db_tool.py:137-141 | after rename_var a package's view is its renamed view merged with the common data: the new name holds the old value unless the common data has it |
| DbTool.AddVarView | gs_db_tool/gs_db_tool.py:107-109 | after add_var every package's view has the name, with the value given unless the common data sets it |
| DbTool.RewrittenTwice | gs_db_tool/gs_db_tool.py:137-141 | a second edit that leaves every rewritten view as it is changes nothing |
| DbTool.AddVarIdempotent | gs_db_tool/gs_db_tool.py:106-109 | adding the same variable twice is adding it once |
| DbTool.RenameSameFolds | gs_db_tool/gs_db_tool.py:137-141 | renaming a name onto itself stores each package's merged view, folding the common data into the record |

## Left out

- Downloading, unpacking and the syncers (wget, tgz, git, temporary directories) are I/O and shell commands. `sync` takes the staged tree as a parameter and keeps only its order: check, clean, copy, check.
- `copy_all` is modelled as an exact copy of the staged tree. The shell `cp` semantics are left out.
- md5 and the other manifest hashes are real hash functions. The model takes the hash as a `Hasher` parameter.
- Portage is not part of this model. `get_max_version` takes the version order as a parameter, and `Dependency.deserialize`, which goes through portage's atom parsing, is not modelled.
- Python dict order is left out: maps and sets take its place. Where the code picks "the first" of a dict, the model picks any element.
- The package `Iterator`'s cursor is left out, including its early stop on an empty category or package. Iteration is the set of (package, merged properties) pairs it yields. The Iterator silently skips a package whose version key is empty (g_sorcery/package_db.py:90-103, and 114-127 for Python 3). DbTool.Rewrite, which models the `for package, ebuild_data in pkg_db` loops of `rename_var` and `add_var` (gs_db_tool/gs_db_tool.py:107, 137), visits every stored version, so for such a package it reaches `add_package`'s check and reports DBError where the source skips the package and goes on.
- PackageDb.PackageDB.Read: the source fails lazily on malformed stored values, while the model refuses them when it reads. On that refusal the model keeps the database it had, where the source would hold the values read.
- PackageDb.PackageDB.Adopt: for a db_version other than 0 and 1 the source has already replaced its database with the raw packages read when it raises DBStructureError. The model keeps the database it had, because raw packages of an unknown structure have no typed form here. A missing db_version raises before the database is touched, in both.
- DbLayout.DBLayout.Write: success is guaranteed when the files are writable and categories.json reads back as written. When it decodes to something else, digest works on what it reads and may still succeed; that case is not characterised. PackageDb.PackageDB.Write, PackageDb.PackageDB.Regenerate, PackageDb.GeneratePackageDb, DbTool.Transform, DbTool.RenameVar and DbTool.AddVar inherit this condition. On failure the files left behind are not stated.
- DbLayout.CategoryNames: iterating a categories.json that holds a list (its items) or a string (its characters) is not modelled and is reported as TypeError. The categories the model keeps are a dict, so only a dict is read.
- Values.Iterate: iterating a dict yields its keys in insertion order. The model has no insertion order and reports TypeError instead. This reaches a package's dependency list (g_sorcery/backend.py:412-413), the values of a tag marked multiple (g_sorcery/metadata.py:109) and the data of a serializable_elist (g_sorcery/g_collections.py:79).
- Collections.DeserializeElist: the source keeps any separator and fails only when the list is printed; the model holds the separator as a string and refuses any other separator with TypeError. A dict as data gives the dict's keys in the source, and TypeError in the model.
- Collections.DeserializePackage: the source builds a Package from any three items; the model's Package holds strings, so it refuses items that are not strings with TypeError.
- Backend.UnpackAsWritten: a bare set of two elements unpacks in the source, and the next use of the two bound packages raises. That use is the `in` test of the next call (TypeError) or, when the loop ends, `solved_deps.add` (AttributeError). The model reports TypeError for both.
- Backend.SolveDependencies: the search order over a set and over the versions is free, so when several errors are possible the model does not say which the source meets first. Its contract states the cause of each kind of error and a condition under which none occurs, not an exact condition for each error.
- `SUPPORTED_DB_LAYOUTS` is imported by the package database but never defined in the layout module. The model takes it to be the layouts 0 and 1.
- Logging, and the printing of CTAN's `process_data`, are output only. CtanDb.ProcessData returns the records instead of printing them.
- The BSON file format needs an external library, and the PyPI generator talks to the network; both are left out.
- The s-expression parsing of ELPA's archive-contents is an external library. The model starts from the parsed entries.
- `gs-db-tool`'s `for_all`, `show_all` and the `exec`/`eval` branches of `add_var` run user code or only print. DbTool.AddVar models the plain-value branch, and otherwise writes the database back as read.
- `sync` in `gs-db-tool` only forwards to PackageDb.PackageDB.Sync, and `read_db` is the read that DbTool.Transform begins with; neither has a member of its own.
- The command line, overlay and ebuild generation, templates, eclasses, `prettify` and the `Backend` wiring are process wiring and file writing; they are left out.
- `g_sorcery/collections.py` is an older copy of the collections that nothing modelled imports.
- Metadata: the description of a package is given to the metadata generator as a parameter, so the KeyError of a package that has none is left out.
- Descriptions.Filtered: the filter is modelled as written. Its ranges end one early, so 'z', 'Z' and '9' are dropped. Descriptions.RangeEndsDropped states this, and the CTAN and both ELPA generators use the same filter. The intended ranges are not modelled separately.

## Findings

| source | as written | input that shows it | evidently intended | confidence | as-written member | corrected member |
|---|---|---|---|---|---|---|
| g_sorcery/db_layout.py:180-181 | the message for an unsupported layout version is a string plus the version, so an integer version raises TypeError | metadata with layout_version 2 | DBLayoutError for every unsupported layout version | not executed | DbLayout.GetLayoutUnknownVersion | DbLayout.GetLayout |
| g_sorcery/backend.py:391-392 | the already-solved path returns the solved set alone, not the pair the callers unpack | a package whose dependency list is [B, B]: the second B takes this path, and unpacking a one-element set raises ValueError | return the pair (solved, in progress) unchanged | not executed | Backend.RevisitOnRepeatedEntry | Backend.SolveDependencies |
