/**
 How the persona endpoint assembles its answer once the language model has replied and
 the image service has returned its pictures: the parsed reply fills the name, bio,
 traits and quote, the first picture becomes the avatar, and the requested theme is
 copied. No picture at all is a server error.

 The model reply, the pictures (already base64-encoded), the new id and the creation
 time are parameters: they come from remote services and library defaults.
 */
module Generate {
  import opened Models
  import opened PersonaParser
  import PersonaProperties

  /** What the endpoint answers: the new persona, or an HTTP error with its detail text. */
  datatype Outcome = Created(persona: GeneratedPersona) | Failed(status: int, detail: string)

  /** The detail of the error raised when the image service returns no picture, as the
      endpoint's outer handler re-raises it (`"<status>: <detail>"` inside its own text). */
  const NoAvatarDetail: string := "Persona oluşturulurken hata: 500: Avatar oluşturulamadı"

  function AssemblePersona(request: GeneratePersonaRequest, reply: string, avatars: seq<string>,
                           id: string, createdAt: int): (out: Outcome)
    ensures out.Failed? <==> avatars == []
    ensures out.Failed? ==> out == Failed(500, NoAvatarDetail)
    ensures out.Created? ==>
      var p := out.persona;
      var data := Parse(reply);
      p.id == id && p.createdAt == createdAt && p.avatarBase64 == avatars[0] &&
      p.personaTheme == request.personaTheme &&
      p.personaName == data.name && p.bioParagraph == data.bio &&
      p.traits == data.traits && p.shareQuote == data.quote
  {
    if avatars == [] then Failed(500, NoAvatarDetail)
    else
      var data := Parse(reply);
      Created(GeneratedPersona(id, data.name, data.bio, data.traits, data.quote, avatars[0],
                               request.personaTheme, createdAt))
  }

  /** Every persona the endpoint creates has a name, a bio, at least one trait and a quote,
      whatever the model replied. */
  lemma CreatedPersonaIsComplete(request: GeneratePersonaRequest, reply: string, avatars: seq<string>,
                                 id: string, createdAt: int)
    ensures var out := AssemblePersona(request, reply, avatars, id, createdAt);
      out.Created? ==>
        out.persona.personaName != [] && out.persona.bioParagraph != [] &&
        out.persona.traits != [] && out.persona.shareQuote != [] &&
        AllClean(out.persona.traits)
  {
    PersonaProperties.ParseIsComplete(reply);
  }
}
