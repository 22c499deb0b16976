/** Instance values shared by the query executor and the instance converter. */
module Instances {

  /** An entity header (AtlasEntityHeader): the entity's GUID and its type name. The other
      header attributes and the resolved classifications are carried opaquely. */
  datatype EntityHeader = EntityHeader(guid: string, typeName: string, attributes: map<string, string>)
}
