/**
 * `build_notion_properties` (app.py): the Notion page properties written
 * for one assignment.
 */
module Properties {
  import opened Values
  import opened Canvas

  /** The database's property names (`PROP_NAME` ... `PROP_STATUS`), configurable by the environment. */
  datatype Schema = Schema(name: string, course: string, canvasId: string, url: string,
                           points: string, due: string, status: string)

  /** The property names used when the environment sets none. */
  const DefaultSchema := Schema("Name", "Course", "Canvas ID", "URL", "Points", "Due Date", "Status")

  /** No two properties share a name. */
  predicate Distinct(s: Schema) {
    var names := [s.name, s.course, s.canvasId, s.url, s.points, s.due, s.status];
    forall i, j :: 0 <= i < j < |names| ==> names[i] != names[j]
  }

  /** The property names a fresh setup configures are pairwise different. */
  lemma DefaultSchemaDistinct()
    ensures Distinct(DefaultSchema)
  {
  }

  /** One property value, by Notion property type. */
  datatype PropValue =
    | Title(text: Value)
    | RichText(text: Value)
    | Url(url: Value)
    | Number(number: Value)
    | Date(start: Value)

  type Props = map<string, PropValue>

  /** The status text: the workflow state, else "published"/"unpublished" from the flag. */
  function StatusValue(x: Assignment): (v: Value)
    ensures Truthy(v)
    ensures Truthy(x.workflowState) ==> v == x.workflowState
    ensures !Truthy(x.workflowState) ==> v == Str(if Truthy(x.published) then "published" else "unpublished")
  {
    Or(x.workflowState, Str(if Truthy(x.published) then "published" else "unpublished"))
  }

  /** The properties of `x`, built as the source builds its dict, entry after entry. */
  function NotionProperties(schema: Schema, x: Assignment): (props: Props)
    ensures props.Keys ==
      {schema.name, schema.course, schema.canvasId, schema.status}
      + (if Truthy(x.url) then {schema.url} else {})
      + (if x.points != Null then {schema.points} else {})
      + (if Truthy(x.dueAt) then {schema.due} else {})
  {
    var props := map[][schema.name := Title(x.name)][schema.course := RichText(x.course)]
                      [schema.canvasId := RichText(Str(x.id))];
    var props := if Truthy(x.url) then props[schema.url := Url(x.url)] else props;
    var props := if x.points != Null then props[schema.points := Number(x.points)] else props;
    var props := if Truthy(x.dueAt) then props[schema.due := Date(x.dueAt)] else props;
    var status := StatusValue(x);
    if Truthy(status) then props[schema.status := RichText(status)] else props
  }

  /** With distinct property names every property holds the field it was built from. */
  lemma NotionPropertyValues(schema: Schema, x: Assignment)
    requires Distinct(schema)
    ensures var props := NotionProperties(schema, x);
      && props[schema.name] == Title(x.name)
      && props[schema.course] == RichText(x.course)
      && props[schema.canvasId] == RichText(Str(x.id))
      && props[schema.status] == RichText(StatusValue(x))
      && (schema.url in props ==> props[schema.url] == Url(x.url))
      && (schema.points in props ==> props[schema.points] == Number(x.points))
      && (schema.due in props ==> props[schema.due] == Date(x.dueAt))
  {
    var names := [schema.name, schema.course, schema.canvasId, schema.url, schema.points, schema.due, schema.status];
    assert names[0] != names[2] && names[1] != names[2] && names[2] != names[3];
    assert names[2] != names[4] && names[2] != names[5] && names[2] != names[6];
    assert names[0] != names[1] && names[0] != names[3] && names[0] != names[4];
    assert names[0] != names[5] && names[0] != names[6] && names[1] != names[3];
    assert names[1] != names[4] && names[1] != names[5] && names[1] != names[6];
    assert names[3] != names[4] && names[3] != names[5] && names[3] != names[6];
    assert names[4] != names[5] && names[4] != names[6] && names[5] != names[6];
  }

  /** `build_notion_properties(x)`: start from the three fixed entries and add the others conditionally. */
  method BuildNotionProperties(schema: Schema, x: Assignment) returns (props: Props)
    ensures props == NotionProperties(schema, x)
  {
    props := map[];
    props := props[schema.name := Title(x.name)];
    props := props[schema.course := RichText(x.course)];
    props := props[schema.canvasId := RichText(Str(x.id))];
    if Truthy(x.url) {
      props := props[schema.url := Url(x.url)];
    }
    if x.points != Null {
      props := props[schema.points := Number(x.points)];
    }
    if Truthy(x.dueAt) {
      props := props[schema.due := Date(x.dueAt)];
    }
    var status := Or(x.workflowState, Str(if Truthy(x.published) then "published" else "unpublished"));
    if Truthy(status) {
      props := props[schema.status := RichText(status)];
    }
  }
}
