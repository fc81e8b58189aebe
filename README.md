# Project catalogue of the portfolio site

The site's data layer, `my-app/lib/projects.ts`, holds a fixed, read-only list of
project records (`Project`, each with a list of `ProjectFeature`s) and three queries
over it: `getProjectBySlug` (the first record with a given slug, or `undefined`),
`getAllProjects` (the list itself) and `getAllTags` (every tag of every record,
deduplicated through a `Set`, then sorted).

This Dafny project models that file:

- `wrappers.dfy` — `Option`, standing for a value or JavaScript's `undefined`.
- `string_order.dfy` — the order JavaScript's default `sort()` puts strings in
  (`AtMost`, `Before`), proved to be a total order and characterised as
  "prefix, or smaller at the first difference"; the sort of `Array.from(set).sort()` as a
  method specified only by its output (strictly ascending, same elements), with a
  lemma that this output is unique, so it does not depend on the sorting algorithm.
- `projects.dfy` — the `Feature` and `Project` datatypes, the shipped three-record
  `Catalogue`, the lookup (`FindBySlug` is `Array.prototype.find` on the slug;
  `GetProjectBySlug` applies it to the catalogue), `GetAllProjects`, and the tag
  collection as a method with the source's two nested loops over a set accumulator
  (`CollectTags`, applied to the catalogue by `GetAllTags`). Facts about the shipped
  data are proved as lemmas.

In the model the catalogue is a `const` value of immutable datatypes, so no query
can change it, and `GetAllProjects` returns the catalogue itself, in the same order.
The records are transcribed as `Projects.Catalogue` from my-app/lib/projects.ts:19-114;
the types `Projects.Project` and `Projects.Feature` follow the interfaces at
my-app/lib/projects.ts:1-16, with the optional `youtubeId` as an `Option`.

## Model

| member | source | states |
|---|---|---|
| `Projects.FindBySlug` | my-app/lib/projects.ts:116-118 | a returned record has the requested slug and belongs to the list; the result is absent exactly when no record has that slug |
| `Projects.FindBySlugIsFirst` | my-app/lib/projects.ts:117 | `find` semantics: the result is the first record, in list order, whose slug matches |
| `Projects.FindBySlugOfMember` | my-app/lib/projects.ts:116-118 | when slugs are distinct, looking up any record's own slug returns that record |
| `Projects.GetProjectBySlug` | my-app/lib/projects.ts:116-118 | over the shipped catalogue: a found record has the slug and is in the catalogue; absent exactly when no catalogue record has the slug; never an error |
| `Projects.GetAllProjects` | my-app/lib/projects.ts:120-122 | returns the catalogue unchanged (same records, same order), and every returned record is what its own slug looks up |
| `Projects.CatalogueSlugsDistinct` | my-app/lib/projects.ts:19-114 | the three shipped slugs are pairwise distinct |
| `Projects.RehabilitationProgramLookup` | my-app/lib/projects.ts:20-50 | "rehabilitation-program" resolves to the first record, titled "ACL Rehabilitation Program", with exactly 4 features |
| `Projects.TagsOf` | my-app/lib/projects.ts:125-131 | the contents of the tag set after the loops: it contains every tag of every record |
| `Projects.TagsOfMeans` | my-app/lib/projects.ts:127-131 | a string is in the collected tag union exactly when some record carries it as a tag |
| `Projects.CollectTags` | my-app/lib/projects.ts:124-134 | the result holds every tag of every record and nothing else, has no duplicates, has as many entries as there are distinct tags, and is strictly ascending |
| `Projects.GetAllTags` | my-app/lib/projects.ts:124-134 | over the shipped catalogue the result is exactly Analytics, Education, Performance, Prevention, Protocol, Rehabilitation, Sports Medicine, Technology, Youth |
| `Projects.ShippedTagsAscending` | my-app/lib/projects.ts:133 | the expected nine-tag list is in strictly ascending order |
| `Projects.CatalogueTags` | my-app/lib/projects.ts:19-114 | the union of the three shipped records' tags is exactly the nine expected tags |
| `StringOrder.AtMostMeans` | my-app/lib/projects.ts:133 | the sort order puts `a` no later than `b` exactly when `a` is a prefix of `b` or `a` has the smaller character at the first difference |
| `StringOrder.AtMostReflexive` | my-app/lib/projects.ts:133 | every string sorts no later than itself |
| `StringOrder.AtMostAntisymmetric` | my-app/lib/projects.ts:133 | two strings that each sort no later than the other are equal |
| `StringOrder.AtMostTransitive` | my-app/lib/projects.ts:133 | the sort order is transitive |
| `StringOrder.AtMostTotal` | my-app/lib/projects.ts:133 | any two strings are comparable |
| `StringOrder.AscendingFromAdjacent` | my-app/lib/projects.ts:133 | a sequence whose every element sorts strictly before the next is strictly ascending throughout |
| `StringOrder.AscendingIsUnique` | my-app/lib/projects.ts:133 | two strictly ascending sequences with the same elements are equal, so the sorted, deduplicated output is fully determined |
| `StringOrder.Least` | my-app/lib/projects.ts:133 | returns an element of the non-empty set that sorts no later than every element of it |
| `StringOrder.AscendingElements` | my-app/lib/projects.ts:133 | `Array.from(set).sort()`: every element of the set exactly once, in strictly ascending order |

## Left out

- GetAllProjects: the source returns a reference to its mutable array, which a caller could reorder or extend so that later queries see the change; the model returns an immutable value. No caller in the shown files changes it.
- GetProjectBySlug: the source returns the stored record object itself, whose fields a caller could overwrite (a changed slug would change later lookups and tag lists); the model returns an immutable value. No caller in the shown files changes it.

- The JavaScript engine's sorting algorithm and the iteration order of `Set`: only the sorted, deduplicated output is specified (and proved unique); the model reaches it by repeatedly taking the least remaining element.
- StringOrder.AtMost: compares Dafny characters (Unicode scalar values), whereas JavaScript compares UTF-16 code units; the two orders agree on characters of the Basic Multilingual Plane, which includes all the ASCII tags of the catalogue, and differ only for characters outside it.
- `app/about/page.tsx` and `components/footer.tsx`: presentational markup; the footer also reads the wall clock and environment configuration.
- `getSocialLinks`, `getSiteConfig`, markdown-to-HTML rendering and static page parameters: they live in `lib/env` and `lib/markdown`, which are not part of this model.
