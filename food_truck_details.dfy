/** The food-truck details card: the image URL it builds from the CMS
    address and the edit/cancel state changes. The CMS address comes from
    the environment and is a parameter. */
module TruckDetails {
  import opened Common

  const DEFAULT_CMS_URL := "https://cms.businessfalkenberg.se"

  /** The component's `foodTruck` prop. */
  datatype TruckProps = TruckProps(id: string, name: string, description: Option<string>, image: Option<string>)

  /** `baseUrl.endsWith('/') ? baseUrl.slice(0, -1) : baseUrl`. */
  function CleanBase(baseUrl: string): (r: string)
    ensures EndsWith(baseUrl, "/") ==> r == baseUrl[..|baseUrl| - 1]
    ensures !EndsWith(baseUrl, "/") ==> r == baseUrl
  {
    if EndsWith(baseUrl, "/") then baseUrl[..|baseUrl| - 1] else baseUrl
  }

  /** `constructImageUrl`: no URL without an image id; otherwise the
      asset path under the configured CMS address (the default one when the
      setting is empty), with one trailing '/' of the address dropped. */
  function ConstructImageUrl(envUrl: string, imageId: Option<string>): (r: Option<string>)
    ensures r.None? <==> imageId.None? || imageId.value == ""
    ensures r.Some? ==> r.value == CleanBase(if envUrl != "" then envUrl else DEFAULT_CMS_URL) +
                            "/assets/" + imageId.value
  {
    if imageId.None? || imageId.value == "" then None
    else
      var baseUrl := if envUrl != "" then envUrl else DEFAULT_CMS_URL;
      Some(CleanBase(baseUrl) + "/assets/" + imageId.value)
  }

  /** An address written with or without its trailing '/' gives the same
      URL, and an empty setting gives the default CMS's asset URL. */
  lemma ImageUrlForms(base: string, id: string)
    requires base != "" && !EndsWith(base, "/") && id != ""
    ensures ConstructImageUrl(base + "/", Some(id)) == ConstructImageUrl(base, Some(id))
    ensures ConstructImageUrl(base, Some(id)) == Some(base + "/assets/" + id)
    ensures ConstructImageUrl("", Some(id)) == Some(DEFAULT_CMS_URL + "/assets/" + id)
  {
    var b := base + "/";
    assert b[|b| - |"/"|..] == "/";
    assert b[..|b| - 1] == base;
    assert DEFAULT_CMS_URL[|DEFAULT_CMS_URL| - 1] == 'e';
  }

  class Details {
    const truck: Option<TruckProps>
    const envUrl: string
    var isEditing: bool
    var name: string
    var description: string
    var error: string
    var imagePreview: Option<string>

    /** The initial state: fields filled from the truck, if any. */
    constructor(truck: Option<TruckProps>, envUrl: string)
      ensures this.truck == truck && this.envUrl == envUrl
      ensures !isEditing && error == ""
      ensures name == (if truck.Some? then truck.value.name else "")
      ensures description == (if truck.Some? && truck.value.description.Some? then truck.value.description.value else "")
      ensures imagePreview == ConstructImageUrl(envUrl, if truck.Some? then truck.value.image else None)
    {
      this.truck := truck;
      this.envUrl := envUrl;
      isEditing := false;
      name := if truck.Some? then truck.value.name else "";
      description := if truck.Some? && truck.value.description.Some? then truck.value.description.value else "";
      error := "";
      imagePreview := ConstructImageUrl(envUrl, if truck.Some? then truck.value.image else None);
    }

    /** `handleEdit`: the fields are copied from the truck and the form opens. */
    method HandleEdit()
      requires truck.Some?
      modifies this`name, this`description, this`imagePreview, this`isEditing
      ensures isEditing
      ensures name == truck.value.name
      ensures description == (if truck.value.description.Some? then truck.value.description.value else "")
      ensures imagePreview == ConstructImageUrl(envUrl, truck.value.image)
    {
      name := truck.value.name;
      description := if truck.value.description.Some? then truck.value.description.value else "";
      imagePreview := ConstructImageUrl(envUrl, truck.value.image);
      isEditing := true;
    }

    /** `handleCancel`: the form closes, the error clears and the preview
      shows the stored image again; the typed name and description stay
      until the next edit overwrites them. */
    method HandleCancel()
      requires truck.Some?
      modifies this`isEditing, this`error, this`imagePreview
      ensures !isEditing && error == ""
      ensures imagePreview == ConstructImageUrl(envUrl, truck.value.image)
    {
      isEditing := false;
      error := "";
      imagePreview := ConstructImageUrl(envUrl, truck.value.image);
    }
  }
}
