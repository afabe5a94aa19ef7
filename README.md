# Student registration: aggregate update, lookup and delete

This project models the core of a student-registration web API. The API
keeps a store of student aggregates. Each aggregate has:

- a root student (Id, Pid, IsActive, CreatedOn, UpdatedOn and simple
  properties);
- seven optional one-to-one children (personal, contact, financial, bank,
  citizenship, academic enrollment, declaration);
- seven owned collections (addresses, emergency contacts, disability
  details, parent/guardians, academic histories, extracurricular details,
  documents).

The model covers four service operations: lookup by Id or by public id
(Pid), listing, delete by Pid, and the in-place update of a whole
aggregate from a complete request. It also covers the mapping profile's
rules: which members a request may overwrite, which are ignored, and
which are stamped with the current time.

The model is laid out as follows:

- `common.dfy`: instants, Guids, `Option`/`Result` and the not-found
  errors.
- `enums.dfy`: the document type.
- `entities.dfy`: the aggregate as a value (`StudentValue`), the request,
  and the `Student` class whose fields the update changes in place.
- `mapping_profile.dfy`: the request→entity mappings as pure functions,
  and the entity→response projection.
- `student_service.dfy`:
  - `FirstMatch`, the first-match lookup behind `FirstOrDefaultAsync`;
  - the clear-and-rebuild of one collection, with its loop that sets the
    owner's key;
  - the specification of the whole update (`UpdatedAggregate`) and the
    method that performs it on a `Student` (`ApplyUpdate`);
  - the `StudentService` class over a `seq<Student>` store.

The store keeps one invariant, `Valid()`: student Ids are distinct,
because Id is the primary key. Pids are not assumed distinct, so a lookup
by Pid finds the first match, as `FirstOrDefaultAsync` does. Not-found is
the `Failure(NotFoundBy…)` / `Fail(…)` result, where the source throws
`KeyNotFoundException`.

The clock is modelled as two parameters:

- `now` is the instant the update captures once (Services/StudentService.cs:141).
- `at` is what `DateTime.UtcNow` yields inside the mapping rules
  (Mappings/MappingProfile.cs:21-22 and the like).

A mapping copies simple properties by name. A property of the entity
that the request also carries takes the request's value, and any other
property keeps its own. An update also resets CreatedOn to `at`, because
every request→entity map stamps both CreatedOn and UpdatedOn.

On the service's explicit steps (Services/StudentService.cs:147-259) the
code and the intended design differ, and the model follows the code:

- A collection whose request list is null is not left untouched. The
  unconditional `?.Clear()` empties it.
- A collection that was null stays null through those steps, and a null
  one-to-one child stays null.

The response mapping runs under the mapper's default configuration, so
a null collection of the aggregate appears in every response (lookups,
listing and the reload after an update) as an empty list.

The mapping of the whole request onto the student at
Services/StudentService.cs:144 runs before those steps. Its effect on
children and collections is not modelled; see "Left out".

## Model

| member | source | states |
|---|---|---|
| `Services.StudentService.UpdateStudent` | Services/StudentService.cs:119-265 | unknown Pid: not-found and no student changes; otherwise the first student with that Pid becomes `UpdatedAggregate` of its old value, every other student is unchanged, the key invariant is kept, and the result is the reload by Id of the updated student |
| `Services.ApplyUpdate` | Services/StudentService.cs:141-259 | the loaded student's new value is exactly `UpdatedAggregate` of its old value, the request and the two instants |
| `Services.UpdatedAggregate` | Services/StudentService.cs:141-259 | the updated aggregate keeps the root's Id, Pid and IsActive, copies the request's simple properties by name, has CreatedOn = mapper instant, stamps the root and every present one-to-one child with the one `now`, and has every element of every collection owned by the root's Id |
| `Services.UpdateDetails` | Services/StudentService.cs:147-188 | the seven child steps, written back into the student in place, give `RefreshedDetails` of the old children |
| `Services.RefreshedDetails` | Services/StudentService.cs:147-188 | each of the seven one-to-one children keeps its presence (absent stays absent) and its Id, Pid and StudentId, takes the properties of its own request group by name, and, if present, has CreatedOn = mapper instant and UpdatedOn = `now` |
| `Services.Refreshed` | Services/StudentService.cs:148-152 | a present child keeps its identity, takes the request's properties by name, and has CreatedOn = mapper instant and UpdatedOn = `now`; an absent child stays absent |
| `Services.RefreshDetail` | Services/StudentService.cs:148-152 | the imperative null check, map and stamp of one child give `Refreshed` |
| `Services.UpdateCollections` | Services/StudentService.cs:190-259 | the seven clear-and-rebuilds, written back into the student in place with the student's Id as owner, give `RebuiltCollections` of the old collections |
| `Services.RebuiltCollections` | Services/StudentService.cs:190-259 | each collection is rebuilt from its own loaded list and its own request list, and every element of every collection ends owned by the owner |
| `Services.Rebuilt` | Services/StudentService.cs:191-199 | null request list: a null collection stays null and any other one becomes empty; otherwise the collection has one fresh element per request element, in order, with the request's data, unset Id and Pid, and both stamps = mapper instant; every element is owned by the owner |
| `Services.RebuildCollection` | Services/StudentService.cs:191-199 | the clear, the conditional replace and the loop that sets each StudentId give `Rebuilt` |
| `Services.AbsentListEmptiesCollection` | Services/StudentService.cs:191-192 | a non-empty collection with a null request list ends empty, not untouched |
| `Services.RebuiltIgnoresExisting` | Services/StudentService.cs:191-194 | a non-null request list replaces the collection whatever it held before |
| `Services.CollectionsIndependent` | Services/StudentService.cs:190-259 | each collection's result depends only on its own loaded list, its own request list and the root Id, not on the other six |
| `Services.RebuiltDocumentTypes` | Services/StudentService.cs:251-258 | the rebuilt documents hold exactly as many records of each document type as the request: no per-type limit is enforced |
| `Services.TypeCountOfData` | Services/StudentService.cs:254-255 | mapping documents keeps each record's document type, so the per-type counts of the mapped and requested lists agree |
| `Services.SetOwner` | Services/StudentService.cs:195-198 | every element gets the owner as StudentId and nothing else changes, in order |
| `Services.StudentService.constructor` | Services/StudentService.cs:16-20 | the service is built over the students the database holds, whose Ids are distinct (primary key), so the key invariant holds from the start |
| `Services.StudentService.GetStudentById` | Services/StudentService.cs:33-57 | no student with that Id: not-found; otherwise the response of the first student with that Id |
| `Services.StudentService.GetStudentByPid` | Services/StudentService.cs:59-82 | no student with that Pid: not-found; otherwise the response of the first student with that Pid |
| `Services.StudentService.GetAllStudents` | Services/StudentService.cs:84-105 | one response per stored student, in store order |
| `Services.StudentService.DeleteStudent` | Services/StudentService.cs:107-117 | unknown Pid: not-found and the store is unchanged; otherwise exactly the first student with that Pid is removed, the others stay in order, the stored Pids lose exactly one occurrence of `pid`, and the key invariant is kept |
| `Services.FirstMatch` | Services/StudentService.cs:50 | the result is absent exactly when no key matches; otherwise it is a matching position with no match before it |
| `Services.FirstMatchIsUnique` | Services/StudentService.cs:50 | with distinct keys, the first match is the only position whose key matches |
| `Services.RemoveAt` | Services/StudentService.cs:115 | removal keeps every other element, in order, and drops exactly one occurrence of the removed one |
| `Services.RemoveFirstMatch` | Services/StudentService.cs:109-115 | removing the first match drops exactly one occurrence of the key and keeps every occurrence of every other key |
| `MappingProfile.CopyByName` | Mappings/MappingProfile.cs:17-22 | the target keeps its set of properties; each one the request carries takes the request's value, each other one keeps its own |
| `MappingProfile.CopyByNameOverwrites` | Mappings/MappingProfile.cs:17-22 | only properties the request does not carry survive a copy: targets that agree on those copy to the same result |
| `MappingProfile.MapStudent` | Mappings/MappingProfile.cs:17-22 | mapping a request onto the root keeps Id, Pid and IsActive, copies the simple properties by name, and sets CreatedOn and UpdatedOn to the current instant |
| `MappingProfile.MapStudentOverwrites` | Mappings/MappingProfile.cs:17-22 | only the ignored members and the properties the request does not carry survive a mapping onto the root: roots that agree on them map to the same result |
| `MappingProfile.MapOnto` | Mappings/MappingProfile.cs:32-86 | mapping a request onto a one-to-one child keeps its Id, Pid and StudentId, copies the properties by name, and stamps both times |
| `MappingProfile.MapOntoIdempotent` | Mappings/MappingProfile.cs:32-38 | mapping the same request twice at one instant equals mapping it once |
| `MappingProfile.MapNew` | Mappings/MappingProfile.cs:89-95 | a freshly mapped element has unset Id, Pid and StudentId (never taken from the request), the request's data, and both stamps at the current instant |
| `MappingProfile.MapNewIsMapOntoUnset` | Mappings/MappingProfile.cs:89-95 | mapping into a fresh element is the same as mapping onto an entity whose identity is unset and whose properties are the request's |
| `MappingProfile.MapAll` | Mappings/MappingProfile.cs:89-143 | a mapped list has one fresh element per request element, in order |
| `MappingProfile.ToResponse` | Mappings/MappingProfile.cs:147-161 | the response is a field-for-field projection: reading the aggregate back from it gives the aggregate, except that every null collection comes back as an empty list |
| `MappingProfile.ToResponses` | Mappings/MappingProfile.cs:155-161 | a list's response has one projected element per entity, in order |
| `MappingProfile.CollectionRoundTrip` | Mappings/MappingProfile.cs:155-161 | reading a collection back from its response gives the collection when it is not null, and an empty collection when it is null |
| `MappingProfile.ToResponseInjective` | Mappings/MappingProfile.cs:147-161 | two aggregates have equal responses exactly when they agree once null collections are read as empty |

## Left out

- `AddStudentAsync` (Services/StudentService.cs:22-31) is not modelled. It needs two things outside this model:
  - AutoMapper's convention mapping of nested and collection members into a new Student;
  - the database's key generation, for the Id it reloads by.
- The convention mapping of same-named nested and collection members during `_mapper.Map(dto, student)` (Services/StudentService.cs:144) is not modelled. This includes the root map's `MapFrom(src => src)` rules for the one-to-one children (Mappings/MappingProfile.cs:23-29). How AutoMapper applies them to an existing or a null destination member is library behaviour. The model keeps the service's own explicit steps instead: the null checks, the per-child maps and the clear-and-rebuild.
- ApplyUpdate, UpdatedAggregate: because line 144's effect on children and collections is left out, two outcomes of the program are not captured.
  - A null one-to-one child, which the root map can build from the request at line 144, stays null in the model, where the program can return it present and stamped.
  - A collection that was null with a null request list, which line 144 can turn into an empty list, stays null in the model, where the program can return it empty.
- RebuildCollection: request lists are modelled as lists of present elements. In the source a null element of a request list maps to null, and setting its StudentId (Services/StudentService.cs:197, and likewise 207, 217, 227, 237, 247, 257) throws before anything is saved. That error path is not modelled.
- MapNew: a fresh element's properties are the request's. Properties the entity has and the request does not carry take their type's default in the source; the entity's property list is not part of this model.
- All clock reads inside one update's mappings are modelled as returning the same instant `at`. The unused `now` captured when the profile is built (Mappings/MappingProfile.cs:12) is not modelled.
- Entity and DTO member lists are not part of this model. Each entity's simple properties are an opaque `Fields` map, and a document adds its `DocumentType`.
- In the source the request is one flat DTO that AutoMapper matches by member name against each child. The model splits it into one group per child.
- A freshly constructed entity's Id, Pid and StudentId are taken to be unset (0 and the empty Guid). Entity constructors and the database's key and Guid generation are not part of this model.
- One-to-one children and collection elements are held as values inside two record-valued fields of `Student` (`details`, `collections`), not as separate objects. Aliasing between child objects is therefore not modelled, and neither is the `Student` back-link, which is ignored by every mapping.
- Persistence is not modelled: EF Core eager loading (`Include`), change tracking, `Update`/`SaveChangesAsync`, concurrency conflicts and async plumbing. A successful update or delete is its effect on the in-memory store.
- File upload and replace, the blob store, and file cleanup are not modelled. The service interface only declares them and their implementation is not part of this model. Delete does not touch files.
- HTTP controllers, the translation of exceptions to status codes, and startup wiring are not modelled.
