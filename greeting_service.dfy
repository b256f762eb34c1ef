/**
 * The personalized greeting of the service-oriented example: a phrase for
 * the current weather followed by the generic greeting. The weather and the
 * generic greeting come from other services and are taken as parameters.
 */
module SoaGreeting {

  /** The weather conditions the greeting names; `Unlisted` stands for any other condition. */
  datatype WeatherCondition = Sunny | Rainy | Cloudy | Foggy | Unlisted(name: string)

  /** `getWeatherGreeting`: the phrase for a weather condition. */
  function WeatherGreeting(condition: WeatherCondition): (phrase: string)
    ensures phrase == "unexpected weather condition" <==> condition.Unlisted?
  {
    match condition
    case Sunny => "What a good sunny day!"
    case Rainy => "What a rainy day!"
    case Cloudy => "What a cloudy day!"
    case Foggy => "What a foggy day!"
    case Unlisted(_) => "unexpected weather condition"
  }

  /** `generateGreeting`: the weather phrase, "! ", the generic greeting and a closing full stop. */
  function GenerateGreeting(condition: WeatherCondition, genericGreeting: string): (greeting: string)
    ensures |greeting| > |WeatherGreeting(condition)|
    ensures greeting[..|WeatherGreeting(condition)|] == WeatherGreeting(condition)
    ensures greeting[|greeting| - 1] == '.'
  {
    WeatherGreeting(condition) + "! " + genericGreeting + "."
  }

  /** The generic greeting sits between the weather phrase's "! " and the final full stop. */
  lemma GreetingParts(condition: WeatherCondition, genericGreeting: string)
    ensures var greeting := GenerateGreeting(condition, genericGreeting);
      var phrase := WeatherGreeting(condition);
      greeting[|phrase|..|phrase| + 2] == "! "
      && greeting[|phrase| + 2..|greeting| - 1] == genericGreeting
  {
  }

  /** Every condition outside the four known ones gets the same error phrase. */
  lemma UnlistedConditionsShareAPhrase(name: string, other: string, genericGreeting: string)
    ensures GenerateGreeting(Unlisted(name), genericGreeting) == GenerateGreeting(Unlisted(other), genericGreeting)
  {
  }

  /** For the same generic greeting, different known conditions give different greetings. */
  lemma KnownConditionsDistinguishable(a: WeatherCondition, b: WeatherCondition, genericGreeting: string)
    requires !a.Unlisted? && !b.Unlisted? && a != b
    ensures GenerateGreeting(a, genericGreeting) != GenerateGreeting(b, genericGreeting)
  {
    var ga := GenerateGreeting(a, genericGreeting);
    var gb := GenerateGreeting(b, genericGreeting);
    // The phrases differ in length or at their eighth character.
    if |WeatherGreeting(a)| == |WeatherGreeting(b)| {
      assert ga[7] != gb[7];
    } else {
      assert |ga| != |gb|;
    }
  }
}
