/** Values exchanged with the collaborators the interview session cannot see:
    the language-model service and the camera. */
module Outcomes {

  datatype Option<T> = None | Some(value: T)

  /** What one awaited language-model call (`askAzureText` or
      `askAzureWithImage`) produced: the reply text, or a thrown error. */
  datatype Reply = Answered(text: string) | Failed

  /** A request issued to the language-model service: a text prompt, or a
      prompt together with a captured camera frame (a JPEG data URL). */
  datatype Request =
    | TextRequest(prompt: string)
    | ImageRequest(prompt: string, image: string)
}
