# pedigree, modelled in Dafny

`pedigree` keeps a family tree as a directed multigraph of people. The edges are labelled "father", "mother" or "spouse". It reads the family from a TOML file, whose sections are `people`, `father`, `mother` and `spouse`, and writes it out as a Graphviz `.dot` file. An older front end splits a three-document YAML "biglist" into record lists and a name-to-uid table.

This project models that core:

- **People and identity.** A `Person` is identified by its uid: equality and hashing look only at it. The constructor, `from_dict`, `__str__`, `display_string` and `first_name` are modelled in `person.dfy`.
- **The family graph.** `graph.dfy` models the multigraph as a list of people plus a list of labelled edges. It covers the queries: `uids`, `names`, `uid_to_person`, `children`, `fathers`, `mothers`, `spouses`, `father`, `mother`, `all_spouses` and `new_anonymous_name`.
- **Checked mutations.** `rules.dfy` holds `add_child`, `add_children`, `add_spouse`, `add_spouses`, `add_father`, `add_mother` and `add_full_sibling`. Each is a function from the graph before to an outcome and the graph after. A raised exception keeps whatever the operation had already changed.
- **The `Family` class.** `family.dfy` is a class with two fields, the graph and the notes dictionary. Its methods are proved to do exactly what those functions say and to keep the graph well formed, meaning uids are unique and every edge joins registered people. `couples` and the note operations are methods there too.
- **Family equality.** `equality.dfy` holds `Family.__eq__`.
- **Couples.** `couples.dfy` holds `couples`.
- **TOML import.** `import.dfy` replays a parsed TOML document into a Family: first the people, then every father, mother and spouse pair.
- **Dot output.** `dot.dfy` holds the statements of the `.dot` file and their rendering.
- **Biglist splitting.** `biglist.dfy` holds `split_biglist` and `uid` from the older top-level library.

Some behaviour is taken as parameters rather than fixed:

- **networkx iteration order.** `fathers()`, `mothers()` and `spouses()` return Python sets. The dot generator takes the order in which they are enumerated as a parameter, and its lemmas hold for every enumeration.
- **The digest in `uid`.** The MD5 hex digest is a parameter.

Python exceptions are modelled as the `Error` values of `outcomes.dfy`.

## Model

| member | source | states |
|---|---|---|
| Persons.ParseGender | src/pedigree/pedigree_lib.py:210-214 | a gender token means male exactly when it is "m" or "male", female exactly when it is "f" or "female" |
| Persons.NewPerson | src/pedigree/pedigree_lib.py:41-55 | the constructor raises TypeError exactly when the given names are an empty list; otherwise every field is stored, the gender both as given and normalised, absent given names become ["???"] and absent notes become [] |
| Persons.FromDict | src/pedigree/pedigree_lib.py:57-66 | a record without a uid raises KeyError; otherwise the constructor's outcome, with the record's uid, surname (default "") and gender (default "?", unknown) |
| Persons.SameUidSamePerson | src/pedigree/pedigree_lib.py:68-75 | Persons with the same uid compare equal and hash alike, whatever their other fields |
| Persons.StrHasSpace | src/pedigree/pedigree_lib.py:77-78 | `__str__` always holds a space right after the given names, so it is never made only of question marks |
| Persons.Str | src/pedigree/pedigree_lib.py:77-78 | `__str__` is the given names joined by spaces, one space, then the surname |
| Persons.FirstName | src/pedigree/pedigree_lib.py:100-101 | `first_name` is one of the given names and the start of `__str__` |
| Persons.Name | src/pedigree/pedigree_lib.py:175-176 | the corrected name of a person: `__str__` when there is a surname, the given names alone otherwise |
| Persons.DisplayString | src/pedigree/pedigree_lib.py:80-95 | succeeds exactly for the four known styles, with a non-empty surname for the two initial styles; an unknown style raises ValueError, an empty surname under an initial style raises IndexError; the result starts with the first given name, and with `with_uid` ends in " (uid)" |
| Persons.FullNameIsStr | src/pedigree/pedigree_lib.py:81-82 | the "full name" style without uid is `__str__` |
| Persons.WithUidAppendsUid | src/pedigree/pedigree_lib.py:92-93 | `with_uid=True` succeeds exactly when `with_uid=False` does and appends " (uid)" to it |
| Text.IntToStringRoundTrip | src/pedigree/pedigree_lib.py:93 | the decimal rendering of a uid parses back to the same uid |
| Families.Family.constructor | src/pedigree/pedigree_lib.py:114-127 | a new family holds the given persons (one per uid), no edges and no notes |
| Families.Family.AddPerson | src/pedigree/pedigree_lib.py:166-167 | adds the person unless a person with that uid is present; edges and notes unchanged; the graph stays well formed |
| FamilyGraph.Uids | src/pedigree/pedigree_lib.py:172-173 | one uid per stored person, in node order |
| FamilyGraph.AddNode | src/pedigree/pedigree_lib.py:166-167 | `add_person` registers the person's uid, leaves the graph unchanged when the uid is already registered, and keeps the graph well formed |
| FamilyGraph.StrNames | src/pedigree/pedigree_lib.py:175-176 | one `__str__` per stored person, in node order |
| FamilyGraph.NodeWithUid | src/pedigree/pedigree_lib.py:184-188 | finds a stored person with the uid exactly when the uid is registered; otherwise TypeError |
| Families.Family.UidToPerson | src/pedigree/pedigree_lib.py:184-188 | the loop returns the lookup's result, TypeError included |
| FamilyGraph.StoredPersonIsRegistered | src/pedigree/pedigree_lib.py:184-188 | in a well-formed graph the lookup by a stored person's uid returns that person |
| Families.NotesAfterAdd | src/pedigree/pedigree_lib.py:193-197 | the note is appended to the person's list, which is created when absent; every other person's notes are unchanged |
| Families.Family.AddNote | src/pedigree/pedigree_lib.py:193-197 | the notes become `NotesAfterAdd` of the old notes and the graph is unchanged |
| Families.NotesAfterDelete | src/pedigree/pedigree_lib.py:199-202 | when the person has that note, the first equal note is removed from their list and the other notes keep their order; otherwise nothing changes; the keys never change |
| Families.Family.DeleteNote | src/pedigree/pedigree_lib.py:199-202 | the notes become `NotesAfterDelete` of the old notes and the graph is unchanged |
| Families.RemoveFirst | src/pedigree/pedigree_lib.py:202 | `list.remove` removes the first occurrence of the value and keeps the rest in order: the result is the list before that position followed by the list after it, one shorter, with one copy fewer of the value |
| Families.DeleteUndoesAddAsMultiset | src/pedigree/pedigree_lib.py:193-202 | deleting a note just added restores the old multiset of notes, and the old list itself when the note was new |
| Rules.LabelFor | src/pedigree/pedigree_lib.py:209-217 | the child edge is a father edge exactly for a male parent and a mother edge exactly for a female one; no label for an unknown gender |
| Rules.AddChildSpec | src/pedigree/pedigree_lib.py:204-220 | an unknown-gender parent raises GenderError after registering the parent; otherwise exactly one edge from parent to child is appended and both are registered |
| Families.Family.AddChild | src/pedigree/pedigree_lib.py:204-220 | the outcome and new graph are `AddChildSpec`'s; notes unchanged; the graph stays well formed |
| Rules.AddChildSucceeds | src/pedigree/pedigree_lib.py:204-220 | a successful `add_child` keeps the graph well formed, registers both ends, puts the child among the parent's children, and appends one father or mother edge from parent to child |
| Rules.AddChildStoresOnlyParentAndChild | src/pedigree/pedigree_lib.py:204-220 | `add_child` stores no Person other than the parent and the child, and only those not already registered |
| Rules.AddChildrenSpec | src/pedigree/pedigree_lib.py:222-224 | `add_children` succeeds exactly when the child list is empty or the parent has a known gender, fails only with GenderError, and keeps the graph well formed |
| Rules.AddChildrenAppendsEdges | src/pedigree/pedigree_lib.py:222-224 | for a parent of known gender, add_children appends one edge per child, in order, with the parent's label |
| Rules.AddChildrenLinksEveryChild | src/pedigree/pedigree_lib.py:222-224 | afterwards every listed child is among the parent's children |
| Rules.AddChildrenUnknownGender | src/pedigree/pedigree_lib.py:222-224 | with an unknown-gender parent the first child raises GenderError, leaving only the parent registered |
| Families.Family.AddChildren | src/pedigree/pedigree_lib.py:222-224 | the loop's outcome and graph are `AddChildrenSpec`'s |
| FamilyGraph.AddEdge | src/pedigree/pedigree_lib.py:226-229 | add_spouse appends exactly one spouse edge and registers both endpoints |
| Families.Family.AddSpouse | src/pedigree/pedigree_lib.py:226-229 | the new graph is `AddEdge` with a spouse label; notes unchanged |
| Rules.AddSpousesSpec | src/pedigree/pedigree_lib.py:231-233 | `add_spouses` keeps the old edges as they were, adds one edge per spouse, and keeps the graph well formed |
| Rules.AddSpousesAppendsEdges | src/pedigree/pedigree_lib.py:231-233 | add_spouses appends one spouse edge per spouse, in order |
| Rules.AddSpousesExtendsAllSpouses | src/pedigree/pedigree_lib.py:231-233 | afterwards `all_spouses` holds the old spouses and one more entry per listed spouse, counted with repeats (the list's order is not stated) |
| Rules.AddSpousesRegisters | src/pedigree/pedigree_lib.py:231-233 | exactly the person (when there is a spouse) and the spouses become registered |
| Families.Family.AddSpouses | src/pedigree/pedigree_lib.py:231-233 | the loop's graph is `AddSpousesSpec`'s |
| Rules.AddParentChecksInOrder | src/pedigree/pedigree_lib.py:274-322 | corrected add_father/add_mother raise GenealogicalError when the child already has such a parent or is the parent, and, when neither holds, GenderError for a parent of the wrong gender, all without changing the graph |
| Rules.RoleSpelling | src/pedigree/pedigree_lib.py:288-290 | the spelling the parent checks want normalises to the role's gender and is neither of the spellings `add_child` accepts |
| Rules.AddChildAsWritten | src/pedigree/pedigree_lib.py:204-220 | as written, `add_child` succeeds exactly for a parent spelt "m" or "f", linking the child; otherwise it raises GenderError after registering the parent |
| Rules.AddParentAsWritten | src/pedigree/pedigree_lib.py:274-336 | as written, add_father/add_mother raise only AttributeError, GenealogicalError or GenderError, and AttributeError exactly when the child already has a parent of that kind |
| Rules.AddParentAsWrittenRaisesAttributeError | src/pedigree/pedigree_lib.py:277-280 | for a child who already has such a parent the code as written raises AttributeError where the corrected operation raises GenealogicalError; the corrected one never raises AttributeError |
| Rules.AddParentAsWrittenNeverAddsNewParent | src/pedigree/pedigree_lib.py:274-336 | as written, add_father/add_mother always fail for a parent not yet registered in the role; a parent that passes the checks is registered and then refused by `add_child` |
| Rules.AddParentAsWrittenRefusesNewParent | src/pedigree/pedigree_lib.py:274-336 | a parent spelt "male"/"female", as the source's own menu passes it, new to the role, for a child without such a parent: the code as written raises GenderError, the corrected operation succeeds |
| Rules.AddParentSpec | src/pedigree/pedigree_lib.py:274-336 | corrected `add_father`/`add_mother` leave the graph unchanged when they fail, fail only with GenealogicalError or GenderError (never the AttributeError of the code as written), and keep the graph well formed |
| Rules.AttachParent | src/pedigree/pedigree_lib.py:324-336 | the attach step fails only with GenderError, after registering the parent; on success the child is among the parent's children; the graph stays well formed |
| Rules.AddParentSucceeds | src/pedigree/pedigree_lib.py:292-336 | on success the graph stays well formed, registers exactly parent and child, the child is among the parent's children, and at most one parent edge was added |
| Rules.AddParentUnderAgreeingRoles | src/pedigree/pedigree_lib.py:324-336 | when every stored father is male and every mother female, success appends exactly the edge of the requested kind, and the child's parent of that kind becomes the given parent |
| Rules.AddParentStoresOnlyParentAndChild | src/pedigree/pedigree_lib.py:274-336 | the only people the operation adds are the parent and the child |
| Rules.AddParentKeepsRolesAgree | src/pedigree/pedigree_lib.py:274-336 | the operation keeps the invariant that fathers are male and mothers female |
| Rules.StoredParentHasRoleGender | src/pedigree/pedigree_lib.py:352-363 | under that invariant a stored father is male and a stored mother is female |
| Rules.ParentEdgeChangesNothingElse | src/pedigree/pedigree_lib.py:352-363 | a new parent edge adds its source to the parents of its kind and changes nothing else |
| Families.Family.AddFather | src/pedigree/pedigree_lib.py:306-336 | the outcome and graph are `AddParentSpec`'s with the father label; notes unchanged |
| Families.Family.AddMother | src/pedigree/pedigree_lib.py:274-304 | the outcome and graph are `AddParentSpec`'s with the mother label; notes unchanged |
| Families.Family.AddParent | src/pedigree/pedigree_lib.py:274-336 | the three checks, then the attach step, follow `AddParentSpec` |
| Families.Family.Attach | src/pedigree/pedigree_lib.py:324-336 | the loop over existing parents of the kind follows `AttachParent` |
| Families.Family.AttachToRegistered | src/pedigree/pedigree_lib.py:327-331 | for a parent already registered in the role, the loop body gives `AttachParent`'s result: nothing changes when the child is already among that parent's children, otherwise the child is linked to the stored Person |
| Families.Family.AttachNew | src/pedigree/pedigree_lib.py:333-336 | for a parent not registered in the role, registering it and adding the child gives `AttachParent`'s result |
| FamilyGraph.AnonymousNameAsWrittenIsAlwaysOneMark | src/pedigree/pedigree_lib.py:262-272 | as written the method always returns "?" |
| FamilyGraph.NewAnonymousNameAsWritten | src/pedigree/pedigree_lib.py:256-272 | as written, the generated name is all question marks and differs from every `str(person)` |
| FamilyGraph.AnonymousNameAsWrittenCollides | src/pedigree/tests/test_pedigree_lib.py:401-407 | as written, a family holding a person named "?" still gets "?" back |
| FamilyGraph.AnonymousNameFor | src/pedigree/pedigree_lib.py:262-272 | the new name is all question marks, one longer than the longest such name, so it equals none of the names |
| FamilyGraph.NewAnonymousName | src/pedigree/pedigree_lib.py:256-272 | the corrected method returns question marks that name no stored person |
| FamilyGraph.NewAnonymousNameAfterInsert | src/pedigree/tests/test_pedigree_lib.py:401-412 | after storing a person with the new name, the next name is one mark longer |
| FamilyGraph.AnonymousNameSkipsPlaceholder | src/pedigree/tests/test_pedigree_lib.py:405-407 | with a person named "?" the next name is "??" |
| Rules.FreshUid | src/pedigree/pedigree_lib.py:244-248 | the placeholder's uid is larger than every stored uid: one more than the largest, or 0 when that is smaller |
| Rules.Placeholder | src/pedigree/pedigree_lib.py:244-248 | a placeholder parent has an unused uid, the next anonymous name and the role's gender |
| Rules.PlaceholderParentIsLinked | src/pedigree/pedigree_lib.py:243-248 | a person without a parent of that kind accepts the placeholder, which becomes linked as that parent |
| Rules.EnsureParent | src/pedigree/pedigree_lib.py:243-248 | afterwards the person has a parent of the kind, an existing one is kept, and the other kind of parent is untouched |
| Rules.AddFullSiblingSpec | src/pedigree/pedigree_lib.py:235-238 | `add_full_sibling` fails, with PersonExistsError and no change, exactly when the person is not registered |
| Rules.FullSiblingLinksBothParents | src/pedigree/pedigree_lib.py:235-253 | afterwards the person has a father and a mother, and the sibling is a child of both |
| Rules.FullSiblingReusesParents | src/pedigree/pedigree_lib.py:240-253 | existing parents are reused: only the sibling is registered, and exactly two edges, from those parents, are added |
| Rules.FullSiblingSynthesisesFreshParents | src/pedigree/pedigree_lib.py:243-248 | missing parents become fresh placeholders with distinct uids, the mother's name one mark longer than the father's |
| Rules.AddFullSiblingAsWritten | src/pedigree/pedigree_lib.py:235-253 | the source as written: a registered person missing a parent raises TypeError from the placeholder's construction, after the sibling is registered |
| Rules.FullSiblingAsWrittenFailsWithoutParents | src/pedigree/pedigree_lib.py:243-248 | as written agrees with the corrected operation when both parents exist, and raises TypeError exactly where the corrected one succeeds |
| Families.Family.EnsureParentOf | src/pedigree/pedigree_lib.py:243-248 | a person without a parent of the kind is given a placeholder through add_father or add_mother; the new graph is `EnsureParent`'s |
| Families.Family.AddFullSibling | src/pedigree/pedigree_lib.py:235-253 | the outcome and graph are `AddFullSiblingSpec`'s; notes unchanged |
| FamilyGraph.Children | src/pedigree/pedigree_lib.py:339-350 | PersonExistsError exactly for an unregistered parent; otherwise the targets of the parent's father and mother edges |
| FamilyGraph.Targets | src/pedigree/pedigree_lib.py:344-350 | the list holds exactly the targets of the source's edges with the given labels |
| FamilyGraph.TargetsCount | src/pedigree/pedigree_lib.py:344-350 | each target occurs as often as there are such edges to it |
| FamilyGraph.Sources | src/pedigree/pedigree_lib.py:352-369 | `fathers`/`mothers`/`spouses` hold exactly the sources of edges of that label, all registered |
| FamilyGraph.FirstSource | src/pedigree/pedigree_lib.py:390-401 | `father`/`mother` return the source of an edge of that label into the person, and None exactly when there is none |
| FamilyGraph.FirstSourceAppend | src/pedigree/pedigree_lib.py:390-401 | an edge that does not end at the person with that kind leaves `father`/`mother` unchanged; one that does gives the person such a parent, namely its source when there was none; another edge from the parent already returned changes nothing |
| FamilyGraph.FatherOf | src/pedigree/pedigree_lib.py:390-395 | `father(person)` is the source of a father edge into the person, and None exactly when there is no such edge |
| FamilyGraph.MotherOf | src/pedigree/pedigree_lib.py:396-401 | `mother(person)` is the source of a mother edge into the person, and None exactly when there is no such edge |
| FamilyGraph.AllSpouses | src/pedigree/pedigree_lib.py:402-408 | exactly the targets of the person's spouse edges |
| CoupleRules.Ordered | src/pedigree/pedigree_lib.py:382-387 | a couple is its two uids, smaller first |
| CoupleRules.CouplesAsWritten | src/pedigree/pedigree_lib.py:371-388 | as written, `sorted` of two Persons raises TypeError exactly when there is any couple |
| CoupleRules.CouplesAsWrittenRaises | src/pedigree/tests/test_pedigree_lib.py:333-334 | a family with one father and mother sharing a child has a couple and the method as written raises TypeError |
| CoupleRules.CouplesHoldParents | src/pedigree/pedigree_lib.py:378-383 | the father and mother of any child form a couple |
| CoupleRules.CouplesHoldSpouses | src/pedigree/pedigree_lib.py:384-387 | any two spouses form a couple, in whichever direction the edge runs |
| CoupleRules.CouplesAreRegisteredPairs | src/pedigree/pedigree_lib.py:371-388 | every couple is an ordered pair of registered uids |
| CoupleRules.CoupleSet | src/pedigree/pedigree_lib.py:371-388 | every couple `couples()` collects is ordered, smaller uid first |
| CoupleRules.ChildCouplesStep | src/pedigree/pedigree_lib.py:378-383 | one more father adds the couples formed with the mothers of his children |
| CoupleRules.SpouseCouplesStep | src/pedigree/pedigree_lib.py:384-387 | one more spouse source adds the couples formed with its spouses |
| Families.Family.Couples | src/pedigree/pedigree_lib.py:371-388 | the corrected loop returns exactly the couples, each once, each ordered |
| Families.Family.CollectChildCouples | src/pedigree/pedigree_lib.py:378-383 | the father loop collects exactly the parent couples, without duplicates |
| Families.Family.CollectSpouseCouples | src/pedigree/pedigree_lib.py:384-387 | the spouse loop adds exactly the spouse couples, without duplicates |
| Families.Family.CollectMotherPairs | src/pedigree/pedigree_lib.py:379-383 | the loop over one father's children adds exactly the couples with their mothers |
| Families.CollectSpousePairs | src/pedigree/pedigree_lib.py:385-387 | the loop over one person's spouses adds exactly those couples |
| Equality.SameFamilyIsEquivalence | src/pedigree/pedigree_lib.py:129-161 | family equality is reflexive, symmetric and transitive |
| Equality.SameFamily | src/pedigree/pedigree_lib.py:129-161 | equal families register the same uids and hold the same number of people |
| Equality.EdgeOrderIrrelevant | src/pedigree/pedigree_lib.py:129-161 | families with the same people and the same edges, in any order, are equal |
| Equality.SameEdgesSameTargets | src/pedigree/pedigree_lib.py:148-159 | the same edges in another order give the same children and spouses, up to order |
| Equality.SameFamilyKeepsChildren | src/pedigree/pedigree_lib.py:148-151 | equal families give every father the same children |
| Families.PeopleWithNotes | src/pedigree/pedigree_lib.py:459-464 | exactly the stored people that have a notes entry |
| TomlImport.FirstUids | src/pedigree/pedigree_lib.py:576-595 | the first uid of each pair, in order |
| TomlImport.PartnersOf | src/pedigree/pedigree_lib.py:620-624 | the list comprehension raises TypeError exactly when some pair for this uid names an unregistered partner; otherwise every such partner is in the list |
| TomlImport.Import | src/pedigree/pedigree_lib.py:575-655 | the method returns exactly what `ImportSpec` gives, a fresh well-formed family without notes on success |
| TomlImport.ImportSpec | src/pedigree/pedigree_lib.py:575-655 | the import fails only with NameError, TypeError or GenderError, and a successful one yields a well-formed graph |
| TomlImport.ImportPeople | src/pedigree/pedigree_lib.py:598-611 | the people loop fails only with TypeError (from the constructor), adds no edge, loses no registered uid, and keeps the graph well formed |
| TomlImport.ReplayParents | src/pedigree/pedigree_lib.py:613-639 | the father or mother loop fails only with NameError, TypeError or GenderError, and keeps the graph well formed |
| TomlImport.ReplaySpouses | src/pedigree/pedigree_lib.py:641-653 | the spouse loop fails only with NameError or TypeError, and keeps the graph well formed |
| TomlImport.AddPeople | src/pedigree/pedigree_lib.py:598-611 | the people loop follows `ImportPeople`, its error included |
| TomlImport.Partners | src/pedigree/pedigree_lib.py:620-624 | the comprehension follows `PartnersOf` |
| TomlImport.PartnersStep | src/pedigree/pedigree_lib.py:620-624 | one pair at a time: skipped, TypeError, or prepended |
| TomlImport.ReplayParentPairs | src/pedigree/pedigree_lib.py:613-639 | the father and mother loops follow `ReplayParents` |
| TomlImport.ReplaySpousePairs | src/pedigree/pedigree_lib.py:641-653 | the spouse loop follows `ReplaySpouses` |
| ImportProperties.ImportPeopleKeepsFirst | src/pedigree/pedigree_lib.py:598-611 | the people phase succeeds exactly when every first record of each uid builds a Person, and then every such Person is stored and no earlier person is lost |
| ImportProperties.ImportPeopleUids | src/pedigree/pedigree_lib.py:598-611 | the people phase registers exactly the uids of the records that have one |
| ImportProperties.ReplayParentsLinksPairs | src/pedigree/pedigree_lib.py:613-639 | every replayed pair links its child to its parent |
| ImportProperties.ReplaySpousesLinksPairs | src/pedigree/pedigree_lib.py:641-653 | every replayed pair adds its spouse edge |
| ImportProperties.ReplayParentsExtends | src/pedigree/pedigree_lib.py:613-639 | replaying never removes an edge |
| ImportProperties.ImportPhases | src/pedigree/pedigree_lib.py:575-655 | a successful import passed through every phase successfully |
| ImportProperties.ImportUnknownParentIsNameError | src/pedigree/pedigree_lib.py:614-618 | a father uid naming nobody makes the import fail with NameError, because the warning names an undefined `uid` |
| ImportProperties.ImportUnknownChildIsTypeError | src/pedigree/pedigree_lib.py:620-624 | a child uid naming nobody makes the import fail with TypeError |
| ImportProperties.ImportGenderlessParentIsGenderError | src/pedigree/pedigree_lib.py:620-625 | a father whose gender is unknown makes the import fail with GenderError |
| ImportProperties.ImportLinksFatherPairs | src/pedigree/pedigree_lib.py:613-625 | after a successful import every father pair is a parent link |
| ImportProperties.ImportLinksMotherPairs | src/pedigree/pedigree_lib.py:627-639 | after a successful import every mother pair is a parent link |
| ImportProperties.ImportLinksSpousePairs | src/pedigree/pedigree_lib.py:641-653 | after a successful import every spouse pair is a spouse edge |
| ImportProperties.ImportDuplicatesEdges | src/pedigree/pedigree_lib.py:613-625 | a father named in two pairs has his whole child list replayed twice: the import succeeds and each of his two children occurs twice among his children |
| Dot.DotFile | src/pedigree/pedigree_lib.py:1030-1060 | the file opens with "digraph family_tree {" and closes with "}" |
| Dot.Statements | src/pedigree/pedigree_lib.py:1030-1060 | the file's statements open the graph, then give one box per stored person in node order, and close the graph last |
| Dot.Render | src/pedigree/pedigree_lib.py:1031-1060 | only the opening statement renders as "digraph family_tree {" and only the closing one as "}" |
| Dot.DotBoxesArePersons | src/pedigree/pedigree_lib.py:1036-1042 | there is one box per stored person and no other box, labelled by `__str__` or the first name |
| Dot.DotArrowsAreEdges | src/pedigree/pedigree_lib.py:1045-1059 | for every enumeration of the fathers, mothers and spouses, blue arrows from a father and orange arrows from a mother occur once per parent edge, and dotted arrows once per spouse edge |
| Dot.ArrowsFromCount | src/pedigree/pedigree_lib.py:1045-1049 | the arrows of one loop occur once per edge from a listed source |
| Dot.RenderInjective | src/pedigree/pedigree_lib.py:1041-1059 | distinct statements render to distinct lines |
| Dot.DotFileDeterminesStatements | src/pedigree/pedigree_lib.py:1030-1060 | two equal dot files come from the same statements |
| BigList.Uid | pedigree_lib.py:4-6 | a uid is "personhash" followed by the digest of the name |
| BigList.Section | pedigree_lib.py:58-60 | a section read succeeds exactly when the document exists and has the heading; IndexError for a missing document, KeyError for a missing heading |
| BigList.Sections | pedigree_lib.py:58-60 | the three reads succeed exactly when there are three documents with their headings, and then give those sections; otherwise IndexError or KeyError, KeyError whenever all three documents exist, IndexError for an empty list |
| BigList.SplitBiglist | pedigree_lib.py:57-102 | fails exactly as the three section reads do; otherwise one record per key of each section, the set of every name mentioned, and a table mapping exactly those names to their uids |
| BigList.BuildRecords | pedigree_lib.py:67-78 | one record per key, in key order |
| BigList.CollectNames | pedigree_lib.py:83-100 | the names gain every record name and member, and the table stays exact |
| BigList.CollectMembers | pedigree_lib.py:86-88 | the names gain the record's members, and the table stays exact |
| BigList.MentionedNames | pedigree_lib.py:83-100 | a name is recorded exactly when it is a key or in one of the lists |
| BigList.RecordsOf | pedigree_lib.py:67-78 | one record per key, each holding its key, the field name and the key's list |
| BigList.NamesIn | pedigree_lib.py:83-100 | every record name and member is mentioned, and every mentioned name is a record name or member |
| BigList.SectionsReadOnlyTheirHeadings | pedigree_lib.py:58-60 | only the father section of the first document, the mother section of the second and the spouse section of the third are read |
| BigList.SectionsIgnoreExtraDocuments | pedigree_lib.py:58-60 | documents after the third make no difference |

## Left out

- Reading and parsing the TOML or YAML file (`toml.load`, `yaml.load`), printing warnings, and every GUI, HTML, temporary-file and command-line function: these are I/O. The import takes an already-parsed document.
- `family_to_yaml`, `biglist_to_family`, the `split_biglist` copy in `src/pedigree/pedigree_lib.py`, `name_to_person`, `change_name` and `string_to_couple`: these are outside the modelled core. The last three also use a `name` attribute that Person no longer has.
- The networkx iteration order of edges is not modelled. The model reads edges in insertion order, while networkx groups them by source node, then target, then key. So the order of the lists `children()` and `all_spouses()` return is not stated: the lemmas about them speak of multisets. Which parent `father()`/`mother()` returns when a child has two parents of one kind is not stated either, so neither is the mother `couples()` pairs with, nor the parents `add_full_sibling` links. Nodes keep their insertion order. `fathers()`, `mothers()` and `spouses()` are sets, and the dot generator takes their enumeration order as a parameter.
- The MD5 digest in `uid` is taken as a parameter. Python 2 dict order in `split_biglist` is the order of the mapping given.
- `int(uid)` in the Person constructor is not modelled: uids are integers from the start. The non-iterable `given_names` check is not modelled, because the types rule it out.
- Persons.ParseGender: the source compares the gender string as given. `add_child` accepts only "m"/"f" while `add_father`/`add_mother` accept only "male"/"female". As written, add_father/add_mother therefore never succeed for a parent not yet registered in the role: they register it and then raise GenderError from `add_child` (see Findings). The corrected operations, and everything built on them, test the normalised gender; only the `...AsWritten` members read the spelling.
- Equality.SameFamily: `Family.__eq__` sorts lists of Persons, which raises TypeError because Persons define no ordering (the same defect as `couples`). The model compares by uid, which is the evident intent, and does not model the exception.
- Families.Family.Couples: returns uid pairs rather than pairs of Person objects.
- Rules.AddFullSiblingSpec: the placeholder parents get uid max(0, largest stored uid + 1). The source as written never builds them (see Findings).
- The graph stores a Person record per uid. Mutation of a Person object shared between the graph and a caller, which Python allows, is not modelled.
- Families.Family.AddFather: follows the corrected `AddParentSpec`. As written, a child who already has a father makes line 309 raise AttributeError instead of GenealogicalError, and a father not yet registered in the role raises GenderError after being registered (see Findings).
- Families.Family.AddMother: follows the corrected `AddParentSpec`. As written, a child who already has a mother makes line 277 raise AttributeError instead of GenealogicalError, and a mother not yet registered in the role raises GenderError after being registered (see Findings).
- Families.Family.AddParent: its first check returns GenealogicalError, the intended exception; the code as written raises AttributeError there (see Findings).
- Rules.AddParentSpec: models the intended behaviour, not the AttributeError or the spelling clash of the code as written; `Rules.AddParentAsWritten` models those.
- Rules.AddParentChecksInOrder: states the corrected first check (GenealogicalError); `Rules.AddParentAsWrittenRaisesAttributeError` states the code as written.

## Findings

| source | as written | input that shows it | evidently intended | confidence | as-written member | corrected member |
|---|---|---|---|---|---|---|
| src/pedigree/pedigree_lib.py:262-272 | the question-mark names are matched against `names()`, which is `__str__`, and that always contains a space, so nothing matches and the result is always "?" | a family holding a person with given names ["?"] and no surname: `new_anonymous_name()` returns "?", that person's own name | one question mark longer than the longest all-question-mark name (the tests expect "??" here) | high, not executed | FamilyGraph.AnonymousNameAsWrittenCollides | FamilyGraph.AnonymousNameSkipsPlaceholder |
| src/pedigree/pedigree_lib.py:382-387 | `sorted([father, mother])` compares two Persons, which define no ordering, so it raises TypeError | a father and a mother of the same child | each couple once, with its members in a fixed order | high, not executed | CoupleRules.CouplesAsWrittenRaises | Families.Family.Couples |
| src/pedigree/pedigree_lib.py:243-248 | the placeholder parent is built with a `name` keyword the Person constructor does not take and without its uid, so it raises TypeError | a registered person with no father | the missing parent is created under the next anonymous name and linked | high, not executed | Rules.FullSiblingAsWrittenFailsWithoutParents | Rules.FullSiblingSynthesisesFreshParents |
| src/pedigree/pedigree_lib.py:277-280 | `self.mother(child) != None` here, and `self.father(child) != None` at line 309, call `Person.__ne__` with None, which reads `None.uid`, so a child who already has such a parent raises AttributeError | `add_father(b, boo)` where b already has father a | GenealogicalError("... already has a father ..."), as the message and the tests say | high, not executed | Rules.AddParentAsWritten | Rules.AddParentSpec |
| src/pedigree/pedigree_lib.py:318-336 | `add_father` accepts only gender "male" (and `add_mother`, at 288, only "female"), then `add_child` (209-216) accepts only "m" and "f", so a parent new to the role is registered and then raises GenderError | `add_father(c, Person(5, gender="male"))` for a fatherless c, with 5 not yet a father | the parent is registered and linked to the child | high, not executed | Rules.AddParentAsWrittenRefusesNewParent | Rules.AddParentSucceeds |
